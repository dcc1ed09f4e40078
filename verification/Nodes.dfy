/** The list of service nodes that discovery keeps: additions, and deletions in place while iterating. */
module Nodes {
  import opened Bytes
  import opened Text

  /** One client of the list; `client` tells clients of the same node apart. */
  datatype Node = Node(servicePath: string, address: string, client: nat)

  type Key = (string, string)

  predicate Matches(node: Node, key: Key) { (node.servicePath, node.address) == key }

  predicate Listed(nodes: seq<Node>, key: Key) {
    exists i :: 0 <= i < |nodes| && Matches(nodes[i], key)
  }

  /** What a deletion means: the list without the node, everything else in order. */
  function Without(nodes: seq<Node>, key: Key): seq<Node> {
    if nodes == [] then []
    else (if Matches(nodes[0], key) then [] else [nodes[0]]) + Without(nodes[1..], key)
  }

  /** What the loop does: the element that slides into the place of a deleted one is not looked at. */
  function Swept(nodes: seq<Node>, key: Key): (r: seq<Node>)
    ensures |r| <= |nodes|
  {
    if nodes == [] then []
    else if !Matches(nodes[0], key) then [nodes[0]] + Swept(nodes[1..], key)
    else if |nodes| == 1 then []
    else [nodes[1]] + Swept(nodes[2..], key)
  }

  /** The last element is seen again behind the end of the shortened list; if it matches, slicing panics. */
  predicate Overruns(nodes: seq<Node>, key: Key) {
    nodes != [] && Matches(nodes[|nodes| - 1], key) && Listed(nodes[..|nodes| - 1], key)
  }

  function Added(nodes: seq<Node>, key: Key, dialled: Option<nat>): seq<Node> {
    if Listed(nodes, key) || dialled == None then nodes
    else nodes + [Node(ToLower(key.0), key.1, dialled.value)]
  }

  function Min(a: nat, b: nat): nat { if a <= b then a else b }

  // The deletion loop on values: `arr` is the array under the original slice, `len` the current length.

  ghost predicate Sweeping(nodes: seq<Node>, key: Key, i: nat, arr: seq<Node>, len: nat) {
    && |arr| == |nodes| && len <= |arr| && i <= |arr|
    && Swept(nodes, key) == arr[..Min(i, len)] + Swept(arr[Min(i, len)..len], key)
    && (if len == |nodes| then arr == nodes && !Listed(nodes[..i], key) else Shortened(nodes, key, i, arr, len))
    && (i == |nodes| ==> !Overruns(nodes, key))
  }

  /** After a deletion the last element also stands behind the end of the list. */
  ghost predicate Shortened(nodes: seq<Node>, key: Key, i: nat, arr: seq<Node>, len: nat)
    requires |arr| == |nodes| && len < |arr|
  {
    i < |nodes| ==>
      && Listed(nodes[..|nodes| - 1], key)
      && (forall k | len <= k < |arr| :: arr[k] == nodes[|nodes| - 1])
      && (i < len ==> arr[len - 1] == nodes[|nodes| - 1])
  }

  lemma SweepStarts(nodes: seq<Node>, key: Key)
    ensures Sweeping(nodes, key, 0, nodes, |nodes|)
  {
    assert nodes[0..|nodes|] == nodes;
  }

  lemma SweepEnds(nodes: seq<Node>, key: Key, arr: seq<Node>, len: nat)
    requires Sweeping(nodes, key, |nodes|, arr, len)
    ensures len <= |arr| && arr[..len] == Swept(nodes, key) && !Overruns(nodes, key)
  {
  }

  lemma SweepPasses(nodes: seq<Node>, key: Key, i: nat, arr: seq<Node>, len: nat)
    requires Sweeping(nodes, key, i, arr, len) && i < |arr| && !Matches(arr[i], key)
    ensures Sweeping(nodes, key, i + 1, arr, len)
  {
    if i < len {
      assert arr[i..len][1..] == arr[i + 1..len];
      assert arr[..i] + [arr[i]] == arr[..i + 1];
    }
  }

  lemma SweepPanics(nodes: seq<Node>, key: Key, i: nat, arr: seq<Node>, len: nat)
    requires Sweeping(nodes, key, i, arr, len) && len <= i < |arr| && Matches(arr[i], key)
    ensures Overruns(nodes, key)
  {
  }

  lemma SweepRemoves(nodes: seq<Node>, key: Key, i: nat, arr: seq<Node>, len: nat, arr': seq<Node>)
    requires Sweeping(nodes, key, i, arr, len) && i < len && Matches(arr[i], key)
    requires |arr'| == |arr| && arr'[..len - 1] == arr[..i] + arr[i + 1..len]
    requires forall k | len - 1 <= k < |arr| :: arr'[k] == arr[k]
    ensures Sweeping(nodes, key, i + 1, arr', len - 1)
  {
    hide Swept, Matches;
    SweptSkips(arr, i, len, arr', key);
    if len == |nodes| {
      assert i + 1 < |nodes| ==> nodes[..|nodes| - 1][i] == nodes[i];
      assert i + 1 == |nodes| ==> nodes[..|nodes| - 1] == nodes[..i];
    }
  }

  lemma SweptSkips(arr: seq<Node>, i: nat, len: nat, arr': seq<Node>, key: Key)
    requires i < len <= |arr| && Matches(arr[i], key)
    requires |arr'| == |arr| && arr'[..len - 1] == arr[..i] + arr[i + 1..len]
    ensures var j := Min(i + 1, len - 1);
            arr[..i] + Swept(arr[i..len], key) == arr'[..j] + Swept(arr'[j..len - 1], key)
  {
    var rest := arr[i..len];
    assert rest[0] == arr[i];
    assert arr'[..i] == arr'[..len - 1][..i] == arr[..i];
    if i + 1 == len {
      assert rest == [arr[i]] && arr'[i..len - 1] == [];
    } else {
      Suffix(arr, i, len, arr');
      assert rest[1] == arr[i + 1] == arr'[..len - 1][i] == arr'[i];
      assert Swept(rest, key) == [rest[1]] + Swept(rest[2..], key);
      Shifted(arr[..i], rest[1], Swept(rest[2..], key));
      assert arr[..i] + [rest[1]] == arr'[..i + 1];
    }
  }

  lemma Shifted(a: seq<Node>, x: Node, b: seq<Node>)
    ensures a + ([x] + b) == (a + [x]) + b
  {
  }

  lemma Suffix(arr: seq<Node>, i: nat, len: nat, arr': seq<Node>)
    requires i + 1 < len <= |arr| && |arr'| == |arr| && arr'[..len - 1] == arr[..i] + arr[i + 1..len]
    ensures arr[i..len][2..] == arr'[i + 1..len - 1]
  {
    forall k | i + 1 <= k < len - 1
      ensures arr'[k] == arr[k + 1]
    {
      assert arr'[k] == arr'[..len - 1][k];
    }
  }

  /** The slice `cachedClient`: an array with spare room behind the first `len` elements. */
  class NodeList {
    var backing: array<Node>
    var len: nat

    ghost predicate Valid()
      reads this
    {
      len <= backing.Length
    }

    ghost function Contents(): seq<Node>
      requires Valid()
      reads this, backing
    {
      backing[..len]
    }

    constructor ()
      ensures Valid() && Contents() == [] && fresh(backing)
    {
      backing := new Node[0];
      len := 0;
    }

    method Find(key: Key) returns (found: bool)
      requires Valid()
      ensures found <==> Listed(Contents(), key)
    {
      found := false;
      for i := 0 to len
        invariant forall j | 0 <= j < i :: !Matches(backing[j], key)
      {
        if Matches(backing[i], key) {
          return true;
        }
      }
    }

    /** `append`: into spare room if there is some, else into a larger array. */
    method Append(node: Node)
      requires Valid()
      modifies this, backing
      ensures Valid() && Contents() == old(Contents()) + [node]
      ensures backing == old(backing) || fresh(backing)
    {
      if len == backing.Length {
        var larger := new Node[2 * len + 1](_ => node);
        forall i | 0 <= i < len {
          larger[i] := backing[i];
        }
        backing := larger;
      }
      backing[len] := node;
      len := len + 1;
    }

    /** The add callback: one client for each node, under its lower-cased service path. */
    method Add(key: Key, dialled: Option<nat>) returns (ok: bool)
      requires Valid()
      modifies this, backing
      ensures Valid() && Contents() == Added(old(Contents()), key, dialled)
      ensures ok <==> Listed(old(Contents()), key) || dialled.Some?
      ensures backing == old(backing) || fresh(backing)
    {
      var found := Find(key);
      if !found {
        if dialled == None {
          return false;
        }
        Append(Node(ToLower(key.0), key.1, dialled.value));
      }
      ok := true;
    }

    /** Both branches of the deletion of one element: the rest moves down inside the same array. */
    method Remove(i: nat)
      requires Valid() && i < len
      modifies this`len, backing
      ensures Valid() && len == old(len) - 1
      ensures Contents() == old(Contents())[..i] + old(Contents())[i + 1..]
      ensures forall k | len <= k < backing.Length :: backing[k] == old(backing[k])
    {
      if len == i + 1 {
        len := i;
      } else {
        forall k | i <= k < len - 1 {
          backing[k] := backing[k + 1];
        }
        len := len - 1;
      }
    }

    /** One turn of the loop of `Delete`, at index `i` of a slice that had `n` elements at the start. */
    method SweepAt(i: nat, n: nat, key: Key, ghost nodes: seq<Node>) returns (panics: bool)
      requires Valid() && i < n <= backing.Length && len <= n && Sweeping(nodes, key, i, backing[..n], len)
      modifies this`len, backing
      ensures Valid() && len <= n
      ensures panics ==> Overruns(nodes, key)
      ensures !panics ==> Sweeping(nodes, key, i + 1, backing[..n], len)
    {
      hide Swept, Matches, Overruns, Sweeping;
      ghost var arr, before := backing[..n], Contents();
      assert before == arr[..len] && backing[i] == arr[i];
      if !Matches(backing[i], key) {
        SweepPasses(nodes, key, i, arr, len);
      } else if len < i + 1 {
        SweepPanics(nodes, key, i, arr, len);
        return true;
      } else {
        Remove(i);
        ghost var arr' := backing[..n];
        assert arr'[..len] == Contents();
        assert before[i + 1..] == arr[i + 1..len + 1] && before[..i] == arr[..i];
        SweepRemoves(nodes, key, i, arr, len + 1, arr');
      }
      panics := false;
    }

    /**
     * The delete callback. The loop runs over the slice as it was at the start, while its body shortens and
     * shifts the list in place; `panics` reports a slice expression out of range.
     */
    method Delete(key: Key) returns (panics: bool)
      requires Valid()
      modifies this`len, backing
      ensures Valid() && panics == Overruns(old(Contents()), key)
      ensures !panics ==> Contents() == Swept(old(Contents()), key)
    {
      hide Swept, Overruns, Sweeping;
      ghost var nodes := Contents();
      var n := len;
      SweepStarts(nodes, key);
      assert backing[..n] == nodes;
      for i := 0 to n
        invariant len <= n <= backing.Length
        invariant Sweeping(nodes, key, i, backing[..n], len)
      {
        panics := SweepAt(i, n, key, nodes);
        if panics {
          return;
        }
      }
      SweepEnds(nodes, key, backing[..n], len);
      assert backing[..n][..len] == Contents();
      panics := false;
    }
  }
}
