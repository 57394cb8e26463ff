/** The conveyors extension's window: the same five conveyors and ten
    photoeyes as the bridge extension, a product spawned on a fixed clock
    rather than on `readyToReceive`, and the oven light following `processActive`. */
module OpcuaConveyors {
  import opened Plc
  import opened Devices
  import Endpoint
  import opened SpawnPolicy

  class UIBuilder {
    /** Whether `on_menu_callback` has run; before that the step's fields do not exist. */
    var menuOpen: bool
    var client: Client?
    var conveyors: seq<Conveyor>
    var photoeyes: seq<Photoeye>
    var readyToReceiveNode: NodeAddress
    var processActiveNode: NodeAddress
    /** `_spawning_new_product`: set by the first spawn, never cleared by a step. */
    var spawningNewProduct: bool
    /** The last value read from `processActive`. */
    var processActive: Value
    /** The visibility of the oven's light prim. */
    var lightVisible: bool
    var spawnClock: real
    /** How many times `_spawn_product` has run. */
    var productsSpawned: nat

    /** Devices are distinct objects and, once the window is open, bound to the
        cell's nodes in list order; the clock never exceeds the interval and the
        light always shows the last `processActive` value. */
    ghost predicate Valid()
      reads this
    {
      Bound() && spawnClock <= SpawnInterval && lightVisible == Truthy(processActive)
    }

    /** The device lists and node bindings, which only a menu open changes. */
    ghost predicate Bound()
      reads this`menuOpen, this`client, this`conveyors, this`photoeyes
      reads this`readyToReceiveNode, this`processActiveNode
    {
      Distinct(conveyors) && Distinct(photoeyes)
      && (menuOpen ==>
            client != null
            && ConveyorNodes(conveyors) == SpeedNodes
            && PhotoeyeNodesOf(photoeyes) == PhotoeyeNodes
            && readyToReceiveNode == ReadyToReceiveNode
            && processActiveNode == ProcessActiveNode)
      && (!menuOpen ==> conveyors == [] && photoeyes == [])
    }

    /** `UIBuilder.__init__`: the spawn clock starts at 2.0. */
    constructor ()
      ensures Valid() && !menuOpen && spawnClock == InitialClock && productsSpawned == 0
    {
      menuOpen := false;
      client := null;
      conveyors := [];
      photoeyes := [];
      readyToReceiveNode := "";
      processActiveNode := "";
      spawningNewProduct := false;
      processActive := Boolean(false);
      lightVisible := false;
      spawnClock := InitialClock;
      productsSpawned := 0;
    }

    /** Opening the window: connect a new client to the server's address space
        `server`, bind the devices (the `k`-th photoeye's sensor prim at height
        `photoeyePrimY[k]`), clear the flags, hide the oven light and restart
        the spawn clock at 2.0. */
    method OnMenuCallback(server: map<NodeAddress, Value>, photoeyePrimY: seq<real>)
      requires |photoeyePrimY| == |PhotoeyeNodes|
      modifies this
      ensures Valid() && menuOpen
      ensures fresh(client) && client.url == Endpoint.MenuEndpoint
      ensures client.tags == server
      ensures forall k :: 0 <= k < |conveyors| ==> fresh(conveyors[k]) && conveyors[k].velocity == None
      ensures forall k :: 0 <= k < |photoeyes| ==>
                fresh(photoeyes[k]) && photoeyes[k].triggered && !photoeyes[k].ledVisible
                && photoeyes[k].rangeMin == DefaultRangeMin && photoeyes[k].rangeMax == DefaultRangeMax
                && photoeyes[k].originY == photoeyePrimY[k] + RayOffset
      ensures !spawningNewProduct && processActive == Boolean(false) && !lightVisible
      ensures spawnClock == InitialClock && productsSpawned == old(productsSpawned)
    {
      var c := new Client(Endpoint.MenuEndpoint, server);
      var cs, ps := NewDevices(photoeyePrimY);
      client := c;
      conveyors := cs;
      photoeyes := ps;
      readyToReceiveNode := ReadyToReceiveNode;
      processActiveNode := ProcessActiveNode;
      spawningNewProduct := false;
      processActive := Boolean(false);
      lightVisible := false;
      spawnClock := InitialClock;
      menuOpen := true;
    }

    /** `_spawn_product`: one more product in the scene. */
    method SpawnProduct()
      modifies this`productsSpawned
      ensures productsSpawned == old(productsSpawned) + 1
    {
      productsSpawned := productsSpawned + 1;
    }

    /** The spawn clock part of a step: add `step`; past the interval, restart
        the clock at 0, set the flag and spawn a product. */
    method AdvanceSpawnClock(step: real)
      requires Valid()
      modifies this`spawnClock, this`spawningNewProduct, this`productsSpawned
      ensures Valid()
      ensures var d := ClockStep(old(spawnClock), step);
              spawnClock == d.clock
              && spawningNewProduct == (old(spawningNewProduct) || d.spawn)
              && productsSpawned == old(productsSpawned) + (if d.spawn then 1 else 0)
    {
      spawnClock := spawnClock + step;
      if spawnClock > SpawnInterval {
        spawnClock := 0.0;
        spawningNewProduct := true;
        SpawnProduct();
      }
    }

    /** The light part of a step: read `processActive` and show it on the oven light. */
    method UpdateProcessLight() returns (r: StepResult)
      requires Valid() && client != null
      modifies this`processActive, this`lightVisible
      ensures Valid()
      ensures processActiveNode !in client.tags ==>
                r == Failed(ReadFailed(processActiveNode))
                && processActive == old(processActive) && lightVisible == old(lightVisible)
      ensures processActiveNode in client.tags ==>
                r == Done && processActive == client.tags[processActiveNode]
                && lightVisible == Truthy(processActive)
    {
      var active := client.ReadValue(processActiveNode);
      if active.None? {
        return Failed(ReadFailed(processActiveNode));
      }
      processActive := active.value;
      lightVisible := Truthy(processActive);
      r := Done;
    }

    /** The device part of a step, on this window's devices. */
    method StepOwnDevices(hits: seq<RaycastResult>) returns (r: StepResult)
      requires Valid() && menuOpen && |hits| == |photoeyes|
      modifies client, conveyors, photoeyes
      ensures Valid()
      ensures r == ConveyorPassResult(conveyors, old(client.tags))
      ensures DevicesStepped(conveyors, photoeyes, hits, client)
    {
      r := StepDevices(conveyors, photoeyes, hits, client);
    }

    /** The part of a step after the devices: the spawn clock, then the oven light. */
    method StepSpawnAndLight(step: real) returns (r: StepResult)
      requires Valid() && client != null
      modifies this`spawnClock, this`spawningNewProduct, this`productsSpawned
      modifies this`processActive, this`lightVisible
      ensures Valid()
      ensures var d := ClockStep(old(spawnClock), step);
              spawnClock == d.clock
              && spawningNewProduct == (old(spawningNewProduct) || d.spawn)
              && productsSpawned == old(productsSpawned) + (if d.spawn then 1 else 0)
      ensures processActiveNode !in client.tags ==>
                r == Failed(ReadFailed(processActiveNode))
                && processActive == old(processActive) && lightVisible == old(lightVisible)
      ensures processActiveNode in client.tags ==>
                r == Done && processActive == client.tags[processActiveNode]
                && lightVisible == Truthy(processActive)
    {
      AdvanceSpawnClock(step);
      r := UpdateProcessLight();
    }

    /** One physics step of size `step`: every conveyor, then every photoeye
        (photoeye `k` answered by `hits[k]`), then the spawn clock, then the oven
        light from `processActive`. A failed read ends the step there. */
    method OnPhysicsStep(step: real, hits: seq<RaycastResult>) returns (r: StepResult)
      requires Valid() && |hits| == |photoeyes|
      modifies this, client, conveyors, photoeyes
      ensures Valid()
      ensures menuOpen == old(menuOpen) && client == old(client)
      ensures readyToReceiveNode == old(readyToReceiveNode) && processActiveNode == old(processActiveNode)
      ensures conveyors == old(conveyors) && photoeyes == old(photoeyes)
      ensures !menuOpen || ConveyorPassResult(conveyors, old(client.tags)).Failed? ==>
                r == (if menuOpen then ConveyorPassResult(conveyors, old(client.tags)) else Failed(NotInitialised))
                && spawnClock == old(spawnClock) && spawningNewProduct == old(spawningNewProduct)
                && productsSpawned == old(productsSpawned)
                && processActive == old(processActive) && lightVisible == old(lightVisible)
      ensures menuOpen ==> DevicesStepped(conveyors, photoeyes, hits, client)
      ensures menuOpen && ConveyorPassResult(conveyors, old(client.tags)).Done? ==>
                var d := ClockStep(old(spawnClock), step);
                spawnClock == d.clock
                && spawningNewProduct == (old(spawningNewProduct) || d.spawn)
                && productsSpawned == old(productsSpawned) + (if d.spawn then 1 else 0)
                && (processActiveNode !in client.tags ==>
                      r == Failed(ReadFailed(processActiveNode))
                      && processActive == old(processActive) && lightVisible == old(lightVisible))
                && (processActiveNode in client.tags ==>
                      r == Done && processActive == client.tags[processActiveNode]
                      && lightVisible == Truthy(processActive))
    {
      if !menuOpen {
        return Failed(NotInitialised);
      }
      r := StepOwnDevices(hits);
      if r.Failed? {
        return;
      }

      r := StepSpawnAndLight(step);
    }
  }
}
