/** The PLC as the simulation's OPC UA client sees it: an address space of
    named tags, each holding a typed value, read and written one node at a time. */
module Plc {

  /** An OPC UA node id such as `ns=6;s=::Logic:processActive`, used as an opaque key. */
  type NodeAddress = string

  /** The values the cell's tags carry (Boolean sensors and flags, integer and double setpoints). */
  datatype Value = Boolean(b: bool) | Int(i: int) | Double(d: real)

  datatype Option<T> = None | Some(value: T)

  /** The elements of `s` are pairwise different. */
  predicate Distinct<T(==)>(s: seq<T>) {
    forall i, j :: 0 <= i < j < |s| ==> s[i] != s[j]
  }

  /** The truth value Python gives a tag value, as in `if value and ...`
      and `set_visibility(visible=value)`: zero and False are false. */
  predicate Truthy(v: Value) {
    match v
    case Boolean(b) => b
    case Int(i) => i != 0
    case Double(d) => d != 0.0
  }

  /** The address space after one write of `v` to `node`. A write to a node the
      server does not have fails and changes nothing; no write creates a node. */
  function Written(tags: map<NodeAddress, Value>, node: NodeAddress, v: Value): (r: map<NodeAddress, Value>)
    ensures r.Keys == tags.Keys
    ensures node in tags ==> r[node] == v
    ensures forall n :: n in tags && n != node ==> r[n] == tags[n]
  {
    if node in tags then tags[node := v] else tags
  }

  /** One write request: the node and the value sent to it. */
  datatype Write = Write(node: NodeAddress, value: Value)

  /** The address space after a sequence of writes, applied in order. */
  function ApplyWrites(tags: map<NodeAddress, Value>, ws: seq<Write>): (r: map<NodeAddress, Value>)
    ensures r.Keys == tags.Keys
    decreases |ws|
  {
    if ws == [] then tags
    else
      var last := ws[|ws| - 1];
      Written(ApplyWrites(tags, ws[..|ws| - 1]), last.node, last.value)
  }

  /** Applying the first `i + 1` writes is applying the first `i`, then write `i`. */
  lemma ApplyWritesPrefix(tags: map<NodeAddress, Value>, ws: seq<Write>, i: nat)
    requires i < |ws|
    ensures ApplyWrites(tags, ws[..i + 1]) == Written(ApplyWrites(tags, ws[..i]), ws[i].node, ws[i].value)
  {
    assert ws[..i + 1][..i] == ws[..i];
  }

  /** A node that no write in `ws` addresses keeps its value. */
  lemma {:induction false} ApplyWritesUntouched(tags: map<NodeAddress, Value>, ws: seq<Write>, node: NodeAddress)
    requires node in tags
    requires forall j :: 0 <= j < |ws| ==> ws[j].node != node
    ensures ApplyWrites(tags, ws)[node] == tags[node]
    decreases |ws|
  {
    if ws != [] {
      ApplyWritesUntouched(tags, ws[..|ws| - 1], node);
    }
  }

  /** The last write to a node decides its value: if `ws[k]` addresses `node`
      and no later write does, `node` ends up holding `ws[k].value`. */
  lemma {:induction false} ApplyWritesLastWins(tags: map<NodeAddress, Value>, ws: seq<Write>, node: NodeAddress, k: nat)
    requires node in tags
    requires k < |ws| && ws[k].node == node
    requires forall j :: k < j < |ws| ==> ws[j].node != node
    ensures ApplyWrites(tags, ws)[node] == ws[k].value
    decreases |ws|
  {
    if k < |ws| - 1 {
      ApplyWritesLastWins(tags, ws[..|ws| - 1], node, k);
    }
  }

  /** The connected OPC UA client of the bridge. `url` is the endpoint it was
      created with; `tags` is the server's address space, which the PLC program
      also changes on its own between physics steps. */
  class Client {
    const url: string
    var tags: map<NodeAddress, Value>

    constructor (url: string, tags: map<NodeAddress, Value>)
      ensures this.url == url && this.tags == tags
    {
      this.url := url;
      this.tags := tags;
    }

    /** `node.read_value()`: the node's current value, or None where the
        server does not know the node (the client raises in that case). */
    method ReadValue(node: NodeAddress) returns (r: Option<Value>)
      ensures r.Some? <==> node in tags
      ensures r.Some? ==> r.value == tags[node]
    {
      if node in tags {
        r := Some(tags[node]);
      } else {
        r := None;
      }
    }

    /** `node.write_value(v)`: succeeds exactly when the node exists, and then
        a read of that node gives back `v`. */
    method WriteValue(node: NodeAddress, v: Value) returns (ok: bool)
      modifies this
      ensures ok <==> node in old(tags)
      ensures tags == Written(old(tags), node, v)
    {
      ok := node in tags;
      tags := Written(tags, node, v);
    }
  }
}
