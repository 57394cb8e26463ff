/** The bridge extension's window: on opening it binds five conveyors, ten
    photoeyes and the `readyToReceive` tag; each physics step then updates the
    devices and spawns one product per rising edge of `readyToReceive`. */
module OpcuaBridge {
  import opened Plc
  import opened Devices
  import Endpoint
  import opened SpawnPolicy

  class UIBuilder {
    /** Whether `on_menu_callback` has run; before that the step's fields do not exist. */
    var menuOpen: bool
    var client: Client?
    var conveyors: seq<Conveyor>
    var photoeyes: seq<Photoeye>
    var readyToReceiveNode: NodeAddress
    /** The latch `_spawning_new_product`. */
    var spawningNewProduct: bool
    /** How many times `_spawn_product` has run. */
    var productsSpawned: nat

    /** Devices are distinct objects, and once the window is open they are
        bound to the cell's nodes in list order. */
    ghost predicate Valid()
      reads this
    {
      Distinct(conveyors) && Distinct(photoeyes)
      && (menuOpen ==>
            client != null
            && ConveyorNodes(conveyors) == SpeedNodes
            && PhotoeyeNodesOf(photoeyes) == PhotoeyeNodes
            && readyToReceiveNode == ReadyToReceiveNode)
      && (!menuOpen ==> conveyors == [] && photoeyes == [])
    }

    constructor ()
      ensures Valid() && !menuOpen && productsSpawned == 0
    {
      menuOpen := false;
      client := null;
      conveyors := [];
      photoeyes := [];
      readyToReceiveNode := "";
      spawningNewProduct := false;
      productsSpawned := 0;
    }

    /** Opening the window: connect a new client to the server's address space
        `server`, bind the devices (the `k`-th photoeye's sensor prim at height
        `photoeyePrimY[k]`) and clear the latch. Every photoeye starts
        triggered with its LED hidden. */
    method OnMenuCallback(server: map<NodeAddress, Value>, photoeyePrimY: seq<real>)
      requires |photoeyePrimY| == |PhotoeyeNodes|
      modifies this
      ensures Valid() && menuOpen
      ensures fresh(client) && client.url == Endpoint.MenuEndpoint
      ensures client.tags == server
      ensures forall k :: 0 <= k < |conveyors| ==> fresh(conveyors[k]) && conveyors[k].velocity == None
      ensures forall k :: 0 <= k < |photoeyes| ==>
                fresh(photoeyes[k]) && photoeyes[k].triggered && !photoeyes[k].ledVisible
                && photoeyes[k].rangeMin == DefaultRangeMin && photoeyes[k].rangeMax == DefaultRangeMax
                && photoeyes[k].originY == photoeyePrimY[k] + RayOffset
      ensures !spawningNewProduct && productsSpawned == old(productsSpawned)
    {
      var c := new Client(Endpoint.MenuEndpoint, server);
      var cs, ps := NewDevices(photoeyePrimY);
      client := c;
      conveyors := cs;
      photoeyes := ps;
      readyToReceiveNode := ReadyToReceiveNode;
      spawningNewProduct := false;
      menuOpen := true;
    }

    /** `_spawn_product`: one more product in the scene. */
    method SpawnProduct()
      modifies this`productsSpawned
      ensures productsSpawned == old(productsSpawned) + 1
    {
      productsSpawned := productsSpawned + 1;
    }

    /** The device part of a step, on this window's devices. */
    method StepOwnDevices(hits: seq<RaycastResult>) returns (r: StepResult)
      requires Valid() && menuOpen && |hits| == |photoeyes|
      modifies client, conveyors, photoeyes
      ensures Valid()
      ensures r == ConveyorPassResult(conveyors, old(client.tags))
      ensures DevicesStepped(conveyors, photoeyes, hits, client)
    {
      r := StepDevices(conveyors, photoeyes, hits, client);
    }

    /** The spawn part of a step: read `readyToReceive`; spawn when it is
        true and the latch is clear, and clear the latch when it is false. */
    method HandleReadyToReceive() returns (r: StepResult)
      requires Valid() && client != null
      modifies this`spawningNewProduct, this`productsSpawned
      ensures Valid()
      ensures readyToReceiveNode !in client.tags ==>
                r == Failed(ReadFailed(readyToReceiveNode))
                && spawningNewProduct == old(spawningNewProduct) && productsSpawned == old(productsSpawned)
      ensures readyToReceiveNode in client.tags ==>
                var d := LatchStep(old(spawningNewProduct), Truthy(client.tags[readyToReceiveNode]));
                r == Done
                && spawningNewProduct == d.latch
                && productsSpawned == old(productsSpawned) + (if d.spawn then 1 else 0)
    {
      var ready := client.ReadValue(readyToReceiveNode);
      if ready.None? {
        return Failed(ReadFailed(readyToReceiveNode));
      }
      var readyForNewProduct := Truthy(ready.value);
      if readyForNewProduct && !spawningNewProduct {
        spawningNewProduct := true;
        SpawnProduct();
      } else if !readyForNewProduct {
        spawningNewProduct := false;
      }
      r := Done;
    }

    /** One physics step: every conveyor, then every photoeye (photoeye `k`
        answered by `hits[k]`), then the latch on the value `readyToReceive`
        holds after the photoeye writes. A failed read ends the step there. */
    method OnPhysicsStep(step: real, hits: seq<RaycastResult>) returns (r: StepResult)
      requires Valid() && |hits| == |photoeyes|
      modifies this, client, conveyors, photoeyes
      ensures Valid()
      ensures menuOpen == old(menuOpen) && client == old(client) && readyToReceiveNode == old(readyToReceiveNode)
      ensures conveyors == old(conveyors) && photoeyes == old(photoeyes)
      ensures !menuOpen ==>
                r == Failed(NotInitialised)
                && spawningNewProduct == old(spawningNewProduct) && productsSpawned == old(productsSpawned)
      ensures menuOpen ==> DevicesStepped(conveyors, photoeyes, hits, client)
      ensures menuOpen && ConveyorPassResult(conveyors, old(client.tags)).Failed? ==>
                r == ConveyorPassResult(conveyors, old(client.tags))
                && spawningNewProduct == old(spawningNewProduct) && productsSpawned == old(productsSpawned)
      ensures menuOpen && ConveyorPassResult(conveyors, old(client.tags)).Done? && readyToReceiveNode !in client.tags ==>
                r == Failed(ReadFailed(readyToReceiveNode))
                && spawningNewProduct == old(spawningNewProduct) && productsSpawned == old(productsSpawned)
      ensures menuOpen && ConveyorPassResult(conveyors, old(client.tags)).Done? && readyToReceiveNode in client.tags ==>
                var d := LatchStep(old(spawningNewProduct), Truthy(client.tags[readyToReceiveNode]));
                r == Done
                && spawningNewProduct == d.latch
                && productsSpawned == old(productsSpawned) + (if d.spawn then 1 else 0)
    {
      if !menuOpen {
        return Failed(NotInitialised);
      }
      r := StepOwnDevices(hits);
      if r.Failed? {
        return;
      }
      r := HandleReadyToReceive();
    }
  }
}
