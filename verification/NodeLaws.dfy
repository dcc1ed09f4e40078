/** When the deletion in place is right, and why the list then stands for a set of nodes. */
module NodeLaws {
  import opened Bytes
  import opened Text
  import opened Nodes

  function KeyOf(node: Node): Key { (node.servicePath, node.address) }

  function KeysOf(nodes: seq<Node>): (keys: set<Key>)
    ensures forall key :: key in keys <==> Listed(nodes, key)
  {
    set i | 0 <= i < |nodes| :: KeyOf(nodes[i])
  }

  ghost predicate Unique(nodes: seq<Node>) {
    forall i, j | 0 <= i < j < |nodes| :: KeyOf(nodes[i]) != KeyOf(nodes[j])
  }

  ghost predicate NoNeighbours(nodes: seq<Node>, key: Key) {
    forall i | 0 <= i < |nodes| - 1 :: !(Matches(nodes[i], key) && Matches(nodes[i + 1], key))
  }

  lemma {:induction false} WithoutElements(nodes: seq<Node>, key: Key)
    ensures forall node :: node in Without(nodes, key) <==> node in nodes && !Matches(node, key)
  {
    if nodes != [] {
      WithoutElements(nodes[1..], key);
      assert forall node :: node in nodes <==> node == nodes[0] || node in nodes[1..];
    }
  }

  /** The loop removes exactly the matching nodes if and only if no two of them are neighbours. */
  lemma {:induction false} SweptExactly(nodes: seq<Node>, key: Key)
    ensures Swept(nodes, key) == Without(nodes, key) <==> NoNeighbours(nodes, key)
  {
    if |nodes| < 2 {
    } else if !Matches(nodes[0], key) {
      SweptExactly(nodes[1..], key);
      assert Swept(nodes, key)[1..] == Swept(nodes[1..], key) && Without(nodes, key)[1..] == Without(nodes[1..], key);
      assert NoNeighbours(nodes, key) <==> NoNeighbours(nodes[1..], key) by { DropUnmatched(nodes, key); }
    } else if Matches(nodes[1], key) {
      WithoutElements(nodes, key);
      assert nodes[1] in Swept(nodes, key);
    } else {
      SweptExactly(nodes[2..], key);
      assert nodes[1..][1..] == nodes[2..];
      assert Without(nodes, key) == Without(nodes[1..], key) == [nodes[1]] + Without(nodes[2..], key);
      assert Swept(nodes, key)[1..] == Swept(nodes[2..], key) && Without(nodes, key)[1..] == Without(nodes[2..], key);
      assert NoNeighbours(nodes, key) <==> NoNeighbours(nodes[2..], key) by {
        DropUnmatched(nodes[1..], key);
        DropAlone(nodes, key);
      }
    }
  }

  lemma DropUnmatched(nodes: seq<Node>, key: Key)
    requires nodes != [] && !Matches(nodes[0], key)
    ensures NoNeighbours(nodes, key) <==> NoNeighbours(nodes[1..], key)
  {
    assert forall i | 0 <= i < |nodes| - 1 :: nodes[1..][i] == nodes[i + 1];
  }

  lemma DropAlone(nodes: seq<Node>, key: Key)
    requires |nodes| >= 2 && !Matches(nodes[1], key)
    ensures NoNeighbours(nodes, key) <==> NoNeighbours(nodes[1..], key)
  {
    assert forall i | 0 <= i < |nodes| - 1 :: nodes[1..][i] == nodes[i + 1];
  }

  /** Without duplicates the loop never runs over the end, and deletes what it should. */
  lemma {:induction false} UniqueDeletes(nodes: seq<Node>, key: Key)
    requires Unique(nodes)
    ensures !Overruns(nodes, key) && Swept(nodes, key) == Without(nodes, key)
  {
    hide Swept, Without;
    SweptExactly(nodes, key);
  }

  /** An addition makes a duplicate exactly when its name differs from the lower-cased one that is listed. */
  lemma AddedExactly(nodes: seq<Node>, key: Key, client: nat)
    requires Unique(nodes)
    ensures Unique(Added(nodes, key, Some(client))) <==>
              Listed(nodes, key) || !Listed(nodes, (ToLower(key.0), key.1))
  {
    hide ToLower;
    var added := Added(nodes, key, Some(client));
    if !Listed(nodes, key) && Listed(nodes, (ToLower(key.0), key.1)) {
      var i :| 0 <= i < |nodes| && Matches(nodes[i], (ToLower(key.0), key.1));
      assert KeyOf(added[i]) == KeyOf(added[|nodes|]);
    }
  }

  // Histories.

  datatype Event = Add(key: Key, dials: bool) | Delete(key: Key)

  /** The list after the events; None once a deletion has panicked. A client is numbered by its event. */
  function Replay(events: seq<Event>): Option<seq<Node>> {
    if events == [] then Some([])
    else
      var n := |events| - 1;
      match Replay(events[..n])
      case None => None
      case Some(nodes) =>
        match events[n]
        case Add(key, dials) => Some(Added(nodes, key, if dials then Some(n) else None))
        case Delete(key) => if Overruns(nodes, key) then None else Some(Swept(nodes, key))
  }

  /** The set that discovery describes. */
  function Members(events: seq<Event>): set<Key> {
    if events == [] then {}
    else
      var n := |events| - 1;
      match events[n]
      case Add(key, dials) => Members(events[..n]) + if dials then {key} else {}
      case Delete(key) => Members(events[..n]) - {key}
  }

  /** The client was dialled by the event of its number, and its node has not been deleted since. */
  ghost predicate Alive(events: seq<Event>, node: Node) {
    && node.client < |events| && events[node.client] == Add(KeyOf(node), true)
    && forall i | node.client < i < |events| :: events[i] != Delete(KeyOf(node))
  }

  /** The list stands for the set, in the order of the additions. */
  ghost predicate Stands(events: seq<Event>, nodes: seq<Node>, members: set<Key>) {
    && Unique(nodes) && KeysOf(nodes) == members
    && (forall i, j | 0 <= i < j < |nodes| :: nodes[i].client < nodes[j].client)
    && (forall node | node in nodes :: Alive(events, node))
  }

  /** Nothing changes for the clients listed before. */
  lemma StillAlive(events: seq<Event>, nodes: seq<Node>, e: Event)
    requires forall node | node in nodes :: Alive(events, node)
    requires forall node | node in nodes :: e != Delete(KeyOf(node))
    ensures forall node | node in nodes :: Alive(events + [e], node)
  {
  }

  /** One more client at the end, later than all others. */
  lemma AppendOrdered(nodes: seq<Node>, node: Node)
    requires forall i, j | 0 <= i < j < |nodes| :: nodes[i].client < nodes[j].client
    requires forall m | m in nodes :: m.client < node.client
    ensures var added := nodes + [node]; forall i, j | 0 <= i < j < |added| :: added[i].client < added[j].client
  {
    var added := nodes + [node];
    forall i, j | 0 <= i < j < |added|
      ensures added[i].client < added[j].client
    {
      assert added[i] == nodes[i];
      if j == |nodes| {
        assert nodes[i] in nodes;
      } else {
        assert added[j] == nodes[j];
      }
    }
  }

  lemma AppendUnique(nodes: seq<Node>, node: Node)
    requires Unique(nodes) && !Listed(nodes, KeyOf(node))
    ensures Unique(nodes + [node])
  {
    var added := nodes + [node];
    forall i, j | 0 <= i < j < |added|
      ensures KeyOf(added[i]) != KeyOf(added[j])
    {
      assert added[i] == nodes[i];
      if j == |nodes| {
        assert !Matches(nodes[i], KeyOf(node));
      } else {
        assert added[j] == nodes[j];
      }
    }
  }

  lemma AddStands(events: seq<Event>, nodes: seq<Node>, members: set<Key>, key: Key, dials: bool)
    requires Stands(events, nodes, members) && Lower(key.0)
    ensures var n := |events|;
            Stands(events + [Add(key, dials)], Added(nodes, key, if dials then Some(n) else None),
                   members + if dials then {key} else {})
  {
    hide ToLower;
    var n, e := |events|, Add(key, dials);
    hide Alive;
    StillAlive(events, nodes, e);
    if dials && !Listed(nodes, key) {
      var node := Node(key.0, key.1, n);
      var added := nodes + [node];
      assert Added(nodes, key, Some(n)) == added;
      assert KeyOf(node) == key;
      assert Alive(events + [e], node) by { JustAdded(events, node); }
      assert forall m | m in added :: m in nodes || m == node;
      assert forall m | m in nodes :: m.client < n by { AliveBefore(events, nodes); }
      AppendOrdered(nodes, node);
      AppendUnique(nodes, node);
      KeysAppend(nodes, node);
    } else {
      assert dials ==> members + {key} == members;
    }
  }

  lemma JustAdded(events: seq<Event>, node: Node)
    requires node.client == |events|
    ensures Alive(events + [Add(KeyOf(node), true)], node)
  {
  }

  lemma AliveBefore(events: seq<Event>, nodes: seq<Node>)
    requires forall node | node in nodes :: Alive(events, node)
    ensures forall node | node in nodes :: node.client < |events|
  {
  }

  lemma KeysAppend(nodes: seq<Node>, node: Node)
    ensures KeysOf(nodes + [node]) == KeysOf(nodes) + {KeyOf(node)}
  {
    hide KeysOf;
    forall k
      ensures k in KeysOf(nodes + [node]) <==> k in KeysOf(nodes) + {KeyOf(node)}
    {
      ListedAppend(nodes, node, k);
    }
  }

  lemma ListedAppend(nodes: seq<Node>, node: Node, k: Key)
    ensures Listed(nodes + [node], k) <==> Listed(nodes, k) || Matches(node, k)
  {
    if Listed(nodes, k) {
      var i :| 0 <= i < |nodes| && Matches(nodes[i], k);
      assert Matches((nodes + [node])[i], k);
    }
    assert (nodes + [node])[|nodes|] == node;
  }

  /** Deleting keeps what holds of all pairs in order. */
  lemma {:induction false} WithoutOrdered(nodes: seq<Node>, key: Key)
    requires Unique(nodes) && forall i, j | 0 <= i < j < |nodes| :: nodes[i].client < nodes[j].client
    ensures var r := Without(nodes, key);
            Unique(r) && forall i, j | 0 <= i < j < |r| :: r[i].client < r[j].client
  {
    if nodes != [] {
      WithoutOrdered(nodes[1..], key);
      WithoutElements(nodes[1..], key);
      var r := Without(nodes[1..], key);
      forall j | 0 <= j < |r|
        ensures KeyOf(nodes[0]) != KeyOf(r[j]) && nodes[0].client < r[j].client
      {
        assert r[j] in r;
        var k :| 0 <= k < |nodes[1..]| && nodes[1..][k] == r[j];
      }
    }
  }

  lemma DeleteStands(events: seq<Event>, nodes: seq<Node>, members: set<Key>, key: Key)
    requires Stands(events, nodes, members)
    ensures !Overruns(nodes, key) && Stands(events + [Delete(key)], Swept(nodes, key), members - {key})
  {
    hide Swept, Without;
    UniqueDeletes(nodes, key);
    WithoutOrdered(nodes, key);
    WithoutElements(nodes, key);
    forall k
      ensures k in KeysOf(Without(nodes, key)) <==> k in members - {key}
    {
      ListedWithout(nodes, key, k);
    }
  }

  lemma ListedWithout(nodes: seq<Node>, key: Key, k: Key)
    ensures Listed(Without(nodes, key), k) <==> Listed(nodes, k) && k != key
  {
    hide Without;
    WithoutElements(nodes, key);
    var r := Without(nodes, key);
    if Listed(r, k) {
      var i :| 0 <= i < |r| && Matches(r[i], k);
      assert r[i] in r;
    }
    if Listed(nodes, k) && k != key {
      var i :| 0 <= i < |nodes| && Matches(nodes[i], k);
      assert nodes[i] in r;
    }
  }

  /**
   * With lower-case names the list refines the set after every history of additions and deletions and for all
   * outcomes of dialling: no panic, no duplicates, the same keys, and survivors in their order.
   */
  lemma {:induction false} ListRefinesSet(events: seq<Event>)
    requires forall e | e in events :: Lower(e.key.0)
    ensures Replay(events).Some? && Stands(events, Replay(events).value, Members(events))
  {
    if events == [] {
      assert KeysOf([]) == {};
    } else {
      var n := |events| - 1;
      var before := events[..n];
      assert events == before + [events[n]];
      ListRefinesSet(before);
      hide Stands, Swept, Overruns, Added, Lower;
      match events[n]
      case Add(key, dials) => AddStands(before, Replay(before).value, Members(before), key, dials);
      case Delete(key) => DeleteStands(before, Replay(before).value, Members(before), key);
    }
  }

  /** Events about the nodes of one service, all under one spelling of its name. */
  ghost predicate About(events: seq<Event>, name: string) {
    forall e | e in events :: e.key.0 == name
  }

  /** Two additions of the same node duplicate it, and a deletion under the lower-case spelling then panics. */
  lemma UpperCaseNode(name: string, address: string) returns (events: seq<Event>)
    requires !Lower(name)
    ensures |events| == 3 && About(events[..2], name) && events[2] == Delete((ToLower(name), address))
    ensures Replay(events) == None && Replay(events[..2]).Some? && !Unique(Replay(events[..2]).value)
  {
    var add := Add((name, address), true);
    var low := (ToLower(name), address);
    events := [add, add, Delete(low)];
    hide ToLower;
    var one, two := Node(low.0, address, 0), Node(low.0, address, 1);
    assert events[..1] == [add] && [add][..0] == [] && events[..2] == [add, add] && [add, add][..1] == [add];
    assert Added([], add.key, Some(0)) == [one];
    assert Replay([add]) == Some([one]);
    assert Added([one], add.key, Some(1)) == [one, two];
    assert Replay([add, add]) == Some([one, two]);
    assert KeyOf([one, two][0]) == KeyOf([one, two][1]);
    assert [one, two][..1] == [one] && Matches([one][0], low);
  }

  /** Under a spelling that is not in lower case nothing is ever found, so nothing is deleted either. */
  lemma {:induction false} NothingMatches(nodes: seq<Node>, key: Key)
    requires forall node | node in nodes :: !Matches(node, key)
    ensures !Listed(nodes, key) && !Overruns(nodes, key) && Swept(nodes, key) == nodes
  {
    assert forall i | 0 <= i < |nodes| :: nodes[i] in nodes;
    if nodes != [] {
      NothingMatches(nodes[1..], key);
      assert nodes == [nodes[0]] + nodes[1..];
    }
  }

  lemma {:induction false} OneSpelling(events: seq<Event>, name: string)
    requires About(events, name) && !Lower(name)
    ensures Replay(events).Some? && forall node | node in Replay(events).value :: node.servicePath == ToLower(name)
  {
    if events != [] {
      var n := |events| - 1;
      OneSpelling(events[..n], name);
      hide Swept, Overruns, ToLower;
      var nodes := Replay(events[..n]).value;
      NothingMatches(nodes, events[n].key);
    }
  }

  /**
   * Under one spelling of its name no history of a service panics, but all of them are free of duplicates exactly
   * when that spelling is in lower case.
   */
  lemma LowerNamesExactly(name: string)
    ensures forall events: seq<Event> | About(events, name) :: Replay(events).Some?
    ensures (forall events: seq<Event> | About(events, name) && Replay(events).Some? :: Unique(Replay(events).value))
            <==> Lower(name)
  {
    forall events: seq<Event> | About(events, name)
      ensures Replay(events).Some? && (Lower(name) ==> Unique(Replay(events).value))
    {
      if Lower(name) {
        ListRefinesSet(events);
      } else {
        OneSpelling(events, name);
      }
    }
    if !Lower(name) {
      var events := UpperCaseNode(name, "");
      assert About(events[..2], name) && !Unique(Replay(events[..2]).value);
    }
  }
}
