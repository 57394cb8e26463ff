/** The simulated devices of the conveyor cell and their PLC tags: photoeyes
    that turn a raycast into a Boolean written to the PLC, conveyors whose belt
    speed is read from the PLC, and the per-step passes over all of them. */
module Devices {
  import opened Plc

  // ---------------------------------------------------------------------------
  // The cell's tag bindings
  // ---------------------------------------------------------------------------

  /** The speed setpoints of conveyors 1 to 5, in list order. */
  const SpeedNodes: seq<NodeAddress> := [
    "ns=6;s=::Logic:conveyor[0].io.aoSpeed",
    "ns=6;s=::Logic:conveyor[1].io.aoSpeed",
    "ns=6;s=::Logic:conveyor[2].io.aoSpeed",
    "ns=6;s=::Logic:conveyor[3].io.aoSpeed",
    "ns=6;s=::Logic:conveyor[4].io.aoSpeed"
  ]

  /** The inputs of photoeyes 1a, 1b, ..., 5a, 5b, in list order. */
  const PhotoeyeNodes: seq<NodeAddress> := [
    "ns=6;s=::Logic:conveyor[0].io.diPhotoeye1",
    "ns=6;s=::Logic:conveyor[0].io.diPhotoeye2",
    "ns=6;s=::Logic:conveyor[1].io.diPhotoeye1",
    "ns=6;s=::Logic:conveyor[1].io.diPhotoeye2",
    "ns=6;s=::Logic:conveyor[2].io.diPhotoeye1",
    "ns=6;s=::Logic:conveyor[2].io.diPhotoeye2",
    "ns=6;s=::Logic:conveyor[3].io.diPhotoeye1",
    "ns=6;s=::Logic:conveyor[3].io.diPhotoeye2",
    "ns=6;s=::Logic:conveyor[4].io.diPhotoeye1",
    "ns=6;s=::Logic:conveyor[4].io.diPhotoeye2"
  ]

  const ReadyToReceiveNode: NodeAddress := "ns=6;s=::Logic:conveyor[0].out.readyToReceive"
  const ProcessActiveNode: NodeAddress := "ns=6;s=::Logic:processActive"

  /** The detection range of every photoeye, in stage units from the ray origin. */
  const DefaultRangeMin: real := 0.0
  const DefaultRangeMax: real := 0.8

  /** The ray starts this far along +y from the sensor prim. */
  const RayOffset: real := 0.1

  /** Every photoeye writes its own node, and none writes a node the bridge reads. */
  lemma PhotoeyeNodesDistinct()
    ensures Distinct(PhotoeyeNodes)
    ensures forall k :: 0 <= k < |PhotoeyeNodes| ==>
              PhotoeyeNodes[k] !in SpeedNodes
              && PhotoeyeNodes[k] != ReadyToReceiveNode && PhotoeyeNodes[k] != ProcessActiveNode
  {
  }

  // ---------------------------------------------------------------------------
  // Step results
  // ---------------------------------------------------------------------------

  /** Why a physics step stopped early: the window was never opened (the
      step's fields do not exist yet), or a read hit a node the server lacks. */
  datatype StepError = NotInitialised | ReadFailed(node: NodeAddress)

  datatype StepResult = Done | Failed(error: StepError)

  // ---------------------------------------------------------------------------
  // Photoeyes
  // ---------------------------------------------------------------------------

  /** What the host's raycast reports for a photoeye's ray: whether it hit
      anything, and the y coordinate of the hit point. */
  datatype RaycastResult = RaycastResult(valid: bool, hitY: real)

  /** The detection rule of a photoeye whose ray starts at `originY`. */
  predicate Triggered(result: RaycastResult, originY: real, rangeMin: real, rangeMax: real) {
    if result.valid then
      var distance := result.hitY - originY;
      distance >= rangeMin && distance <= rangeMax
    else
      false
  }

  /** A photoeye is triggered exactly when its ray hit something at a distance
      within the range, both ends included; a miss never triggers it. */
  lemma TriggeredIffInRange(result: RaycastResult, originY: real, rangeMin: real, rangeMax: real)
    ensures Triggered(result, originY, rangeMin, rangeMax)
            <==> result.valid && rangeMin <= result.hitY - originY <= rangeMax
    ensures !result.valid ==> !Triggered(result, originY, rangeMin, rangeMax)
  {
  }

  /** Hits exactly at either end of the range trigger; hits beyond either end do not. */
  lemma RangeEndsInclusive(originY: real, rangeMin: real, rangeMax: real, e: real)
    requires rangeMin <= rangeMax && e > 0.0
    ensures Triggered(RaycastResult(true, originY + rangeMin), originY, rangeMin, rangeMax)
    ensures Triggered(RaycastResult(true, originY + rangeMax), originY, rangeMin, rangeMax)
    ensures !Triggered(RaycastResult(true, originY + rangeMin - e), originY, rangeMin, rangeMax)
    ensures !Triggered(RaycastResult(true, originY + rangeMax + e), originY, rangeMin, rangeMax)
  {
  }

  /** A photoeye bound to one Boolean PLC node. `ledVisible` is the visibility
      of its LED prim. */
  class Photoeye {
    const node: NodeAddress
    const rangeMin: real
    const rangeMax: real
    /** The y coordinate the ray starts from. */
    const originY: real
    var triggered: bool
    var ledVisible: bool

    /** A photoeye whose sensor prim sits at world height `primY`: the LED starts
        hidden while `triggered` starts true. */
    constructor (primY: real, node: NodeAddress, rangeMin: real, rangeMax: real)
      ensures this.node == node && this.rangeMin == rangeMin && this.rangeMax == rangeMax
      ensures originY == primY + RayOffset
      ensures triggered && !ledVisible
    {
      this.node := node;
      this.rangeMin := rangeMin;
      this.rangeMax := rangeMax;
      originY := primY + RayOffset;
      ledVisible := false;
      triggered := true;
    }

    /** What this photoeye reports for `result`. */
    predicate Sees(result: RaycastResult) {
      Triggered(result, originY, rangeMin, rangeMax)
    }

    /** The raycast callback: decide `triggered`, show it on the LED, then
        write it to the PLC node. A failed write is the callback's last action,
        so it leaves `triggered` and the LED as set. */
    method StatusCallback(result: RaycastResult, client: Client)
      modifies this, client
      ensures triggered == Sees(result)
      ensures ledVisible == triggered
      ensures client.tags == Written(old(client.tags), node, Boolean(triggered))
    {
      if result.valid {
        var distance := result.hitY - originY;
        if distance >= rangeMin && distance <= rangeMax {
          triggered := true;
        } else {
          triggered := false;
        }
      } else {
        triggered := false;
      }
      ledVisible := triggered;
      var written := client.WriteValue(node, Boolean(triggered));
    }

    /** Submit the raycast; the host answers with `result`, which is handed
        to the callback before the next device is updated. */
    method Update(result: RaycastResult, client: Client)
      modifies this, client
      ensures triggered == Sees(result) && ledVisible == triggered
      ensures client.tags == Written(old(client.tags), node, Boolean(triggered))
    {
      StatusCallback(result, client);
    }
  }

  /** A photoeye shows `result`: its flag is the verdict and its LED shows the flag. */
  ghost predicate Shows(p: Photoeye, result: RaycastResult)
    reads p
  {
    p.triggered == p.Sees(result) && p.ledVisible == p.triggered
  }

  /** The writes one pass over the photoeyes sends, in list order. */
  function PhotoeyeWrites(ps: seq<Photoeye>, hits: seq<RaycastResult>): (ws: seq<Write>)
    requires |hits| == |ps|
    ensures |ws| == |ps|
    ensures forall k :: 0 <= k < |ps| ==> ws[k] == Write(ps[k].node, Boolean(ps[k].Sees(hits[k])))
  {
    seq(|ps|, k requires 0 <= k < |ps| => Write(ps[k].node, Boolean(ps[k].Sees(hits[k]))))
  }

  function PhotoeyeNodesOf(ps: seq<Photoeye>): (nodes: seq<NodeAddress>)
    ensures |nodes| == |ps| && forall k :: 0 <= k < |ps| ==> nodes[k] == ps[k].node
  {
    seq(|ps|, k requires 0 <= k < |ps| => ps[k].node)
  }

  /** With distinct nodes, after a pass each photoeye's node holds that
      photoeye's own verdict. */
  lemma PassLeavesEachVerdict(tags: map<NodeAddress, Value>, ps: seq<Photoeye>, hits: seq<RaycastResult>, k: nat)
    requires |hits| == |ps| && k < |ps|
    requires Distinct(PhotoeyeNodesOf(ps)) && ps[k].node in tags
    ensures ApplyWrites(tags, PhotoeyeWrites(ps, hits))[ps[k].node] == Boolean(ps[k].Sees(hits[k]))
  {
    var ws := PhotoeyeWrites(ps, hits);
    forall j | k < j < |ws|
      ensures ws[j].node != ps[k].node
    {
      assert PhotoeyeNodesOf(ps)[k] != PhotoeyeNodesOf(ps)[j];
    }
    ApplyWritesLastWins(tags, ws, ps[k].node, k);
  }

  /** A pass over the cell's photoeyes leaves every other node as the PLC set
      it; in particular `readyToReceive` and `processActive`, which the step reads
      after the pass, still hold the PLC's own value. */
  lemma PassKeepsOtherNodes(tags: map<NodeAddress, Value>, ps: seq<Photoeye>, hits: seq<RaycastResult>, node: NodeAddress)
    requires |hits| == |ps| && PhotoeyeNodesOf(ps) == PhotoeyeNodes
    requires node in tags && node !in PhotoeyeNodes
    ensures node in ApplyWrites(tags, PhotoeyeWrites(ps, hits))
    ensures ApplyWrites(tags, PhotoeyeWrites(ps, hits))[node] == tags[node]
  {
    var ws := PhotoeyeWrites(ps, hits);
    forall j | 0 <= j < |ws|
      ensures ws[j].node != node
    {
      assert ws[j].node == PhotoeyeNodesOf(ps)[j];
    }
    ApplyWritesUntouched(tags, ws, node);
  }

  /** One step's pass over the photoeyes, each exactly once and in list order,
      photoeye `k` answered by `hits[k]`. */
  method UpdatePhotoeyes(ps: seq<Photoeye>, hits: seq<RaycastResult>, client: Client)
    requires |hits| == |ps| && Distinct(ps)
    modifies ps, client
    ensures forall k :: 0 <= k < |ps| ==> Shows(ps[k], hits[k])
    ensures client.tags == ApplyWrites(old(client.tags), PhotoeyeWrites(ps, hits))
  {
    ghost var ws := PhotoeyeWrites(ps, hits);
    var i := 0;
    while i < |ps|
      invariant 0 <= i <= |ps|
      invariant forall k :: 0 <= k < i ==> Shows(ps[k], hits[k])
      invariant client.tags == ApplyWrites(old(client.tags), ws[..i])
    {
      ps[i].Update(hits[i], client);
      ApplyWritesPrefix(old(client.tags), ws, i);
      i := i + 1;
    }
    assert ws[..|ps|] == ws;
  }

  // ---------------------------------------------------------------------------
  // Conveyors
  // ---------------------------------------------------------------------------

  /** A conveyor bound to its speed setpoint node. `velocity` is the belt
      graph's `inputs:velocity` attribute, None until the bridge first sets it. */
  class Conveyor {
    const node: NodeAddress
    var velocity: Option<Value>

    constructor (node: NodeAddress)
      ensures this.node == node && velocity == None
    {
      this.node := node;
      velocity := None;
    }

    /** Copy the speed read from the PLC into the belt velocity, unscaled and
        unclamped. A read of a node the server lacks raises, leaving the velocity. */
    method Update(client: Client) returns (r: StepResult)
      modifies this
      ensures node in client.tags ==> r == Done && velocity == Some(client.tags[node])
      ensures node !in client.tags ==> r == Failed(ReadFailed(node)) && velocity == old(velocity)
    {
      var speed := client.ReadValue(node);
      if speed.None? {
        return Failed(ReadFailed(node));
      }
      velocity := speed;
      r := Done;
    }
  }

  function ConveyorNodes(cs: seq<Conveyor>): (nodes: seq<NodeAddress>)
    ensures |nodes| == |cs| && forall k :: 0 <= k < |cs| ==> nodes[k] == cs[k].node
  {
    seq(|cs|, k requires 0 <= k < |cs| => cs[k].node)
  }

  /** The index of the first node the server lacks, or `|nodes|` when it has them all. */
  function FirstMissing(nodes: seq<NodeAddress>, tags: map<NodeAddress, Value>): (m: nat)
    ensures m <= |nodes|
    ensures forall k :: 0 <= k < m ==> nodes[k] in tags
    ensures m < |nodes| ==> nodes[m] !in tags
  {
    if nodes == [] then 0
    else if nodes[0] !in tags then 0
    else 1 + FirstMissing(nodes[1..], tags)
  }

  /** The first `m` conveyors carry the speed read from their node; the rest are as they were. */
  twostate predicate ConveyorsCopied(cs: seq<Conveyor>, tags: map<NodeAddress, Value>, m: nat)
    reads cs
  {
    m <= |cs|
    && (forall k :: 0 <= k < m ==> cs[k].node in tags && cs[k].velocity == Some(tags[cs[k].node]))
    && (forall k :: m <= k < |cs| ==> cs[k].velocity == old(cs[k].velocity))
  }

  /** One step's pass over the conveyors, each exactly once and in list order.
      The pass stops at the first conveyor whose node the server lacks. */
  method UpdateConveyors(cs: seq<Conveyor>, client: Client) returns (r: StepResult)
    requires Distinct(cs)
    modifies cs
    ensures var m := FirstMissing(ConveyorNodes(cs), client.tags);
            ConveyorsCopied(cs, client.tags, m)
            && r == if m < |cs| then Failed(ReadFailed(cs[m].node)) else Done
  {
    var i := 0;
    while i < |cs|
      invariant 0 <= i <= |cs|
      invariant ConveyorsCopied(cs, client.tags, i)
    {
      r := cs[i].Update(client);
      if r.Failed? {
        assert FirstMissing(ConveyorNodes(cs), client.tags) == i;
        return;
      }
      i := i + 1;
    }
    r := Done;
  }

  // ---------------------------------------------------------------------------
  // The device part of a physics step
  // ---------------------------------------------------------------------------

  /** How the conveyor pass over `cs` ends against the address space `tags`. */
  function ConveyorPassResult(cs: seq<Conveyor>, tags: map<NodeAddress, Value>): (r: StepResult)
    ensures r.Done? <==> forall k :: 0 <= k < |cs| ==> cs[k].node in tags
    ensures r.Failed? ==>
              exists k :: 0 <= k < |cs| && cs[k].node !in tags && r == Failed(ReadFailed(cs[k].node))
                && (forall j :: 0 <= j < k ==> cs[j].node in tags)
  {
    var m := FirstMissing(ConveyorNodes(cs), tags);
    if m < |cs| then Failed(ReadFailed(cs[m].node)) else Done
  }

  /** The state a physics step leaves the devices in: conveyors updated up to
      the first missing node; if there was none, every photoeye shows its
      raycast and its verdict is written, in list order; otherwise the
      photoeyes and the PLC are untouched. */
  twostate predicate DevicesStepped(cs: seq<Conveyor>, ps: seq<Photoeye>, hits: seq<RaycastResult>, client: Client)
    requires |hits| == |ps|
    reads cs, ps, client
  {
    ConveyorsCopied(cs, old(client.tags), FirstMissing(ConveyorNodes(cs), old(client.tags)))
    && (ConveyorPassResult(cs, old(client.tags)).Failed? ==>
          unchanged(ps) && client.tags == old(client.tags))
    && (ConveyorPassResult(cs, old(client.tags)).Done? ==>
          (forall k :: 0 <= k < |ps| ==> Shows(ps[k], hits[k]))
          && client.tags == ApplyWrites(old(client.tags), PhotoeyeWrites(ps, hits)))
  }

  /** The device part of both extensions' physics step: all conveyors, then
      all photoeyes. */
  method StepDevices(cs: seq<Conveyor>, ps: seq<Photoeye>, hits: seq<RaycastResult>, client: Client)
    returns (r: StepResult)
    requires |hits| == |ps| && Distinct(cs) && Distinct(ps)
    modifies cs, ps, client
    ensures r == ConveyorPassResult(cs, old(client.tags))
    ensures DevicesStepped(cs, ps, hits, client)
  {
    r := UpdateConveyors(cs, client);
    if r.Failed? {
      return;
    }
    UpdatePhotoeyes(ps, hits, client);
  }

  // ---------------------------------------------------------------------------
  // Building the device lists
  // ---------------------------------------------------------------------------

  /** Fresh conveyors bound to `nodes`, in order. */
  method NewConveyors(nodes: seq<NodeAddress>) returns (cs: seq<Conveyor>)
    ensures ConveyorNodes(cs) == nodes && Distinct(cs)
    ensures forall k :: 0 <= k < |cs| ==> fresh(cs[k]) && cs[k].velocity == None
  {
    cs := [];
    for i := 0 to |nodes|
      invariant ConveyorNodes(cs) == nodes[..i] && Distinct(cs)
      invariant forall k :: 0 <= k < |cs| ==> fresh(cs[k]) && cs[k].velocity == None
    {
      var c := new Conveyor(nodes[i]);
      cs := cs + [c];
    }
    assert nodes[..|nodes|] == nodes;
  }

  /** Fresh photoeyes bound to `nodes`, in order, the `k`-th at height `primY[k]`,
      all with the default range. */
  method NewPhotoeyes(primY: seq<real>, nodes: seq<NodeAddress>) returns (ps: seq<Photoeye>)
    requires |primY| == |nodes|
    ensures PhotoeyeNodesOf(ps) == nodes && Distinct(ps)
    ensures forall k :: 0 <= k < |ps| ==>
              fresh(ps[k]) && ps[k].triggered && !ps[k].ledVisible
              && ps[k].rangeMin == DefaultRangeMin && ps[k].rangeMax == DefaultRangeMax
              && ps[k].originY == primY[k] + RayOffset
  {
    ps := [];
    for i := 0 to |nodes|
      invariant PhotoeyeNodesOf(ps) == nodes[..i] && Distinct(ps)
      invariant forall k :: 0 <= k < |ps| ==>
                  fresh(ps[k]) && ps[k].triggered && !ps[k].ledVisible
                  && ps[k].rangeMin == DefaultRangeMin && ps[k].rangeMax == DefaultRangeMax
                  && ps[k].originY == primY[k] + RayOffset
    {
      var p := new Photoeye(primY[i], nodes[i], DefaultRangeMin, DefaultRangeMax);
      ps := ps + [p];
    }
    assert nodes[..|nodes|] == nodes;
  }

  /** The devices a menu open binds: fresh conveyors on the five speed nodes
      and fresh photoeyes on the ten photoeye nodes, the `k`-th at height
      `primY[k]`. */
  method NewDevices(primY: seq<real>) returns (cs: seq<Conveyor>, ps: seq<Photoeye>)
    requires |primY| == |PhotoeyeNodes|
    ensures ConveyorNodes(cs) == SpeedNodes && Distinct(cs)
    ensures forall k :: 0 <= k < |cs| ==> fresh(cs[k]) && cs[k].velocity == None
    ensures PhotoeyeNodesOf(ps) == PhotoeyeNodes && Distinct(ps)
    ensures forall k :: 0 <= k < |ps| ==>
              fresh(ps[k]) && ps[k].triggered && !ps[k].ledVisible
              && ps[k].rangeMin == DefaultRangeMin && ps[k].rangeMax == DefaultRangeMax
              && ps[k].originY == primY[k] + RayOffset
  {
    cs := NewConveyors(SpeedNodes);
    ps := NewPhotoeyes(primY, PhotoeyeNodes);
  }
}
