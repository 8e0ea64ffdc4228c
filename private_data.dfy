// layer/private_data.cpp: the global registries that map a dispatchable
// object's key (layer/private_data.hpp's get_key: the loader dispatch
// pointer it starts with, shared by an instance and its physical devices)
// to the layer's data for it. The lock around each map is left out.
module PrivateData {
  import opened VkTypes

  /** A dispatchable Vulkan object: its handle and the key get_key reads from it. */
  datatype Dispatchable = Dispatchable(handle: nat, key: nat)

  /** instance_private_data: the dispatch table source and the loader callback. */
  class InstancePrivateData {
    const instance: nat
    const getProc: nat
    const setLoaderData: nat

    constructor (inst: nat, gp: nat, sld: nat)
      ensures instance == inst && getProc == gp && setLoaderData == sld
    {
      instance := inst;
      getProc := gp;
      setLoaderData := sld;
    }
  }

  /** device_private_data: its dispatch source, loader callback and a reference to its instance's data. */
  class DevicePrivateData {
    const device: nat
    const getProc: nat
    const instanceData: InstancePrivateData
    const setLoaderData: nat

    constructor (dev: nat, gp: nat, inst: InstancePrivateData, sld: nat)
      ensures device == dev && getProc == gp && instanceData == inst && setLoaderData == sld
    {
      device := dev;
      getProc := gp;
      instanceData := inst;
      setLoaderData := sld;
    }
  }

  /** g_instance_data and g_device_data. */
  class Registry {
    var instanceData: map<nat, InstancePrivateData>
    var deviceData: map<nat, DevicePrivateData>

    constructor ()
      ensures instanceData == map[] && deviceData == map[]
    {
      instanceData := map[];
      deviceData := map[];
    }

    /**
     * instance_private_data::create: new data for inst under its key,
     * replacing whatever was registered there.
     */
    method CreateInstanceData(inst: Dispatchable, getProc: nat, setLoaderData: nat) returns (d: InstancePrivateData)
      modifies this
      ensures fresh(d) && d.instance == inst.handle && d.getProc == getProc && d.setLoaderData == setLoaderData
      ensures instanceData == old(instanceData)[inst.key := d]
      ensures deviceData == old(deviceData)
    {
      d := new InstancePrivateData(inst.handle, getProc, setLoaderData);
      instanceData := instanceData[inst.key := d];
    }

    /** instance_private_data::get: the data under key, which must be registered (asserted). */
    function GetInstanceData(key: nat): (d: InstancePrivateData)
      reads this
      requires key in instanceData
      ensures d in instanceData.Values
    {
      instanceData[key]
    }

    /**
     * instance_private_data::destroy: the data under inst's key is
     * unregistered. A key that was never registered is asserted against in
     * debug builds; in release builds the lookup inserts a null entry that
     * the erase removes again and deleting null does nothing, so the map
     * simply lacks the key.
     */
    method DestroyInstanceData(inst: Dispatchable)
      modifies this
      ensures instanceData == old(instanceData) - {inst.key}
      ensures deviceData == old(deviceData)
    {
      instanceData := instanceData - {inst.key};
    }

    /**
     * device_private_data::create as written: the data is built with a
     * reference to the instance data found through the physical device's
     * key and registered under the device's key, but the function ends
     * without a return statement, so no reference comes back (undefined
     * behaviour in C++).
     */
    method CreateDeviceDataAsWritten(dev: Dispatchable, getProc: nat, physDev: Dispatchable, setLoaderData: nat)
      returns (returned: Option<DevicePrivateData>)
      requires physDev.key in instanceData
      modifies this
      ensures returned.None?
      ensures instanceData == old(instanceData)
      ensures dev.key in deviceData && fresh(deviceData[dev.key])
      ensures deviceData[dev.key].instanceData == instanceData[physDev.key]
    {
      var d := new DevicePrivateData(dev.handle, getProc, GetInstanceData(physDev.key), setLoaderData);
      deviceData := deviceData[dev.key := d];
      returned := None;
    }

    /**
     * device_private_data::create, returning the data it registered: the
     * new data references the instance data found through the physical
     * device's key (asserted present) and replaces whatever was registered
     * under the device's key.
     */
    method CreateDeviceData(dev: Dispatchable, getProc: nat, physDev: Dispatchable, setLoaderData: nat)
      returns (d: DevicePrivateData)
      requires physDev.key in instanceData
      modifies this
      ensures fresh(d) && d.device == dev.handle && d.getProc == getProc && d.setLoaderData == setLoaderData
      ensures instanceData == old(instanceData)
      ensures d.instanceData == instanceData[physDev.key]
      ensures deviceData == old(deviceData)[dev.key := d]
    {
      d := new DevicePrivateData(dev.handle, getProc, GetInstanceData(physDev.key), setLoaderData);
      deviceData := deviceData[dev.key := d];
    }

    /** device_private_data::get: the data under key, which must be registered (asserted). */
    function GetDeviceData(key: nat): (d: DevicePrivateData)
      reads this
      requires key in deviceData
      ensures d in deviceData.Values
    {
      deviceData[key]
    }

    /**
     * device_private_data::destroy: the key is unregistered; unlike the
     * instance registry there is no assertion, so an unknown key is a
     * no-op.
     */
    method DestroyDeviceData(dev: Dispatchable)
      modifies this
      ensures deviceData == old(deviceData) - {dev.key}
      ensures instanceData == old(instanceData)
    {
      deviceData := deviceData - {dev.key};
    }
  }
}
