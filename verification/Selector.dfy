/** The round-robin selector: a cyclic search that is fair over any number of picks. */
module Selector {
  import opened Bytes
  import opened Transitions

  // Positions are counted without wrapping; position `p` stands for the index `p` modulo the length.

  lemma Remainder(p: nat, q: nat, r: nat, n: nat)
    requires p == q * n + r && r < n
    ensures p % n == r
  {
    Quotient(p / n, p % n, q, r, n);
  }

  lemma RemainderTurn(p: nat, n: nat)
    requires n > 0
    ensures (p + n) % n == p % n
  {
    assert p + n == (p / n + 1) * n + p % n;
    Remainder(p + n, p / n + 1, p % n, n);
  }

  lemma NextRemainder(p: nat, n: nat)
    requires n > 0
    ensures (p % n + 1) % n == (p + 1) % n
  {
    var q, r := p / n, p % n;
    assert p == q * n + r;
    if r + 1 < n {
      Remainder(p + 1, q, r + 1, n);
    } else {
      Remainder(r + 1, 1, 0, n);
      assert q * n + n == (q + 1) * n;
      Remainder(p + 1, q + 1, 0, n);
    }
  }

  /** Every index occurs in every window of one turn. */
  lemma WindowCovers(lo: nat, j: nat, n: nat) returns (p: nat)
    requires j < n
    ensures lo <= p < lo + n && p % n == j
  {
    var q, r := lo / n, lo % n;
    assert lo == q * n + r;
    if r <= j {
      p := lo + (j - r);
      Remainder(p, q, j, n);
    } else {
      p := lo + (j + n - r);
      assert q * n + n == (q + 1) * n;
      Remainder(p, q + 1, j, n);
    }
  }

  function Index(clients: seq<Status>, p: nat): (j: nat)
    requires clients != []
    ensures j < |clients|
  {
    p % |clients|
  }

  predicate Serving(clients: seq<Status>, p: nat)
    requires clients != []
  {
    clients[Index(clients, p)] == Available
  }

  /** `j` is the index of the first available client from position `lo` on. */
  ghost predicate FirstFrom(clients: seq<Status>, lo: nat, j: nat)
    requires clients != []
  {
    exists p: nat :: lo <= p && j == Index(clients, p) && Serving(clients, p)
      && forall q: nat | lo <= q < p :: !Serving(clients, q)
  }

  /** `Nobody` stands for the nil client, `Panics` for the remainder by an empty length. */
  datatype Picked = Chosen(index: nat) | Nobody | Panics

  class RoundRobinSelector {
    var lastIndex: nat

    constructor ()
      ensures lastIndex == 0
    {
      lastIndex := 0;
    }

    /** The loop goes on after a hit, and its index may start beyond a list that has shrunk. */
    method Pick(clients: seq<Status>) returns (r: Picked)
      modifies this
      ensures r == Panics <==> clients == []
      ensures clients == [] ==> lastIndex == old(lastIndex)
      ensures clients != [] ==> (r == Nobody <==> Available !in clients)
      ensures r == Nobody ==> lastIndex == (old(lastIndex) + 1) % |clients|
      ensures r.Chosen? ==> lastIndex == r.index && FirstFrom(clients, old(lastIndex) + 1, r.index)
    {
      if clients == [] {
        return Panics;
      }
      var n := |clients|;
      ghost var lo, p := lastIndex + 1, lastIndex + 1;
      lastIndex := (lastIndex + 1) % n;
      var picked: nat := lastIndex;
      for i := 0 to n
        invariant lo <= p <= lo + i && lastIndex == p % n
        invariant forall q: nat | lo <= q < p :: !Serving(clients, q)
        invariant i > 0 && p < lo + i ==> Serving(clients, p) && picked == lastIndex
        invariant picked < n && (i > 0 && p == lo + i ==> clients[picked] != Available)
      {
        picked := lastIndex;
        if clients[picked] != Available {
          NextRemainder(p, n);
          lastIndex := (lastIndex + 1) % n;
          p := p + 1;
        }
      }
      if clients[picked] != Available {
        forall j | 0 <= j < n
          ensures clients[j] != Available
        {
          var q := WindowCovers(lo, j, n);
          assert !Serving(clients, q);
        }
        RemainderTurn(lo, n);
        return Nobody;
      }
      return Chosen(picked);
    }
  }

  // Many picks from a list whose statuses do not change.

  /** The indices that successive picks return when the search starts at position `lo`. */
  ghost predicate Picks(clients: seq<Status>, lo: nat, picks: seq<nat>)
    requires clients != []
    decreases |picks|
  {
    picks == [] || (FirstFrom(clients, lo, picks[0]) && Picks(clients, picks[0] + 1, picks[1..]))
  }

  /** The available clients at the positions from `lo` to `hi`, in cyclic order. */
  function Cycle(clients: seq<Status>, lo: nat, hi: nat): seq<nat>
    requires clients != [] && lo <= hi
    decreases hi - lo
  {
    if lo == hi then []
    else (if Serving(clients, lo) then [Index(clients, lo)] else []) + Cycle(clients, lo + 1, hi)
  }

  lemma {:induction false} ServingTurns(clients: seq<Status>, p: nat, q: nat)
    requires clients != []
    ensures Index(clients, p + q * |clients|) == Index(clients, p)
    ensures Serving(clients, p + q * |clients|) == Serving(clients, p)
  {
    var n := |clients|;
    assert p == (p / n) * n + p % n;
    assert p + q * n == (p / n + q) * n + p % n;
    Remainder(p + q * n, p / n + q, p % n, n);
  }

  /** Whole turns do not change which client comes first. */
  lemma FirstTurns(clients: seq<Status>, lo: nat, q: nat, j: nat)
    requires clients != [] && FirstFrom(clients, lo, j)
    ensures FirstFrom(clients, lo + q * |clients|, j)
  {
    hide Index, Serving;
    var shift := q * |clients|;
    forall p: nat
      ensures Index(clients, p + shift) == Index(clients, p) && Serving(clients, p + shift) == Serving(clients, p)
    {
      ServingTurns(clients, p, q);
    }
    FirstShifted(clients, lo, shift, j);
  }

  lemma FirstShifted(clients: seq<Status>, lo: nat, shift: nat, j: nat)
    requires clients != [] && FirstFrom(clients, lo, j)
    requires forall p: nat :: Index(clients, p + shift) == Index(clients, p)
    requires forall p: nat :: Serving(clients, p + shift) == Serving(clients, p)
    ensures FirstFrom(clients, lo + shift, j)
  {
    hide Index, Serving;
    var p: nat :| lo <= p && j == Index(clients, p) && Serving(clients, p)
                  && forall r: nat | lo <= r < p :: !Serving(clients, r);
    var p' := p + shift;
    assert Serving(clients, p') && j == Index(clients, p');
    forall r: nat | lo + shift <= r < p'
      ensures !Serving(clients, r)
    {
      var back := r - shift;
      assert Serving(clients, back + shift) == Serving(clients, back);
    }
  }

  lemma PicksTurn(clients: seq<Status>, p: nat, picks: seq<nat>)
    requires clients != [] && Picks(clients, Index(clients, p) + 1, picks)
    ensures Picks(clients, p + 1, picks)
  {
    if picks != [] {
      FirstTurns(clients, p % |clients| + 1, p / |clients|, picks[0]);
      assert p == (p / |clients|) * |clients| + p % |clients|;
    }
  }

  /** However many picks there are, they follow the cyclic order. */
  lemma {:induction false} PicksFollowCycle(clients: seq<Status>, lo: nat, hi: nat, picks: seq<nat>)
    requires clients != [] && lo <= hi && Picks(clients, lo, picks) && |picks| <= |Cycle(clients, lo, hi)|
    ensures picks == Cycle(clients, lo, hi)[..|picks|]
    decreases hi - lo
  {
    if lo < hi && picks != [] {
      if Serving(clients, lo) {
        PicksTurn(clients, lo, picks[1..]);
        PicksFollowCycle(clients, lo + 1, hi, picks[1..]);
      } else {
        PicksFollowCycle(clients, lo + 1, hi, picks);
      }
    }
  }

  // One turn of the cycle.

  function Up(clients: seq<Status>): (s: set<nat>)
    ensures forall j: nat :: j in s <==> j < |clients| && clients[j] == Available
  {
    set j: nat | j < |clients| && clients[j] == Available
  }

  lemma {:induction false} CycleSnoc(clients: seq<Status>, lo: nat, hi: nat)
    requires clients != [] && lo <= hi
    ensures Cycle(clients, lo, hi + 1)
         == Cycle(clients, lo, hi) + if Serving(clients, hi) then [Index(clients, hi)] else []
    decreases hi - lo
  {
    if lo < hi {
      CycleSnoc(clients, lo + 1, hi);
    }
  }

  lemma {:induction false} FirstTurn(clients: seq<Status>, m: nat)
    requires clients != [] && m <= |clients|
    ensures multiset(Cycle(clients, 0, m)) == multiset(Up(clients[..m]))
  {
    if m > 0 {
      hide Index, Cycle, Up;
      FirstTurn(clients, m - 1);
      CycleSnoc(clients, 0, m - 1);
      assert Index(clients, m - 1) == m - 1 by { Remainder(m - 1, 0, m - 1, |clients|); }
      UpSnoc(clients, m - 1);
    } else {
      assert Up(clients[..0]) == {};
    }
  }

  lemma UpSnoc(clients: seq<Status>, m: nat)
    requires m < |clients|
    ensures multiset(Up(clients[..m + 1]))
         == multiset(Up(clients[..m])) + if clients[m] == Available then multiset{m} else multiset{}
  {
    assert m !in Up(clients[..m]);
    assert Up(clients[..m + 1]) == Up(clients[..m]) + if clients[m] == Available then {m} else {};
  }

  /** From wherever it starts, one turn meets every available client exactly once. */
  lemma {:induction false} OneTurn(clients: seq<Status>, lo: nat)
    requires clients != []
    ensures multiset(Cycle(clients, lo, lo + |clients|)) == multiset(Up(clients))
    ensures |Cycle(clients, lo, lo + |clients|)| == |Up(clients)|
  {
    hide Serving, Index, Cycle, Up;
    var n := |clients|;
    if lo == 0 {
      FirstTurn(clients, n);
      assert clients[..n] == clients;
    } else {
      OneTurn(clients, lo - 1);
      NextTurn(clients, lo - 1);
    }
    assert |multiset(Cycle(clients, lo, lo + n))| == |multiset(Up(clients))|;
  }

  /** What leaves the window at its front comes in again at its end. */
  lemma NextTurn(clients: seq<Status>, lo: nat)
    requires clients != []
    ensures multiset(Cycle(clients, lo + 1, lo + 1 + |clients|)) == multiset(Cycle(clients, lo, lo + |clients|))
  {
    hide Serving, Index, Cycle;
    var n := |clients|;
    var front := if Serving(clients, lo) then [Index(clients, lo)] else [];
    var middle := Cycle(clients, lo + 1, lo + n);
    assert Cycle(clients, lo, lo + n) == front + middle by { CycleFront(clients, lo, lo + n); }
    assert Cycle(clients, lo + 1, lo + n + 1) == middle + front by {
      CycleSnoc(clients, lo + 1, lo + n);
      ServingTurns(clients, lo, 1);
    }
  }

  lemma CycleFront(clients: seq<Status>, lo: nat, hi: nat)
    requires clients != [] && lo < hi
    ensures Cycle(clients, lo, hi)
         == (if Serving(clients, lo) then [Index(clients, lo)] else []) + Cycle(clients, lo + 1, hi)
  {
  }

  /**
   * Fairness: as many picks as there are available clients return each of them exactly once, in cyclic order,
   * wherever the index stood.
   */
  lemma RoundRobin(clients: seq<Status>, lastIndex: nat, picks: seq<nat>)
    requires clients != [] && Picks(clients, lastIndex + 1, picks) && |picks| == |Up(clients)|
    ensures picks == Cycle(clients, lastIndex + 1, lastIndex + 1 + |clients|)
    ensures multiset(picks) == multiset(Up(clients))
  {
    var hi := lastIndex + 1 + |clients|;
    OneTurn(clients, lastIndex + 1);
    PicksFollowCycle(clients, lastIndex + 1, hi, picks);
    assert Cycle(clients, lastIndex + 1, hi)[..|picks|] == Cycle(clients, lastIndex + 1, hi);
  }

  lemma {:induction false} PicksSnoc(clients: seq<Status>, lo: nat, picks: seq<nat>, j: nat)
    requires clients != [] && Picks(clients, lo, picks)
    requires FirstFrom(clients, (if picks == [] then lo else picks[|picks| - 1] + 1), j)
    ensures Picks(clients, lo, picks + [j])
    decreases |picks|
  {
    hide FirstFrom;
    var more := picks + [j];
    if picks == [] {
      assert more[1..] == [];
    } else {
      PicksSnoc(clients, picks[0] + 1, picks[1..], j);
      assert more[0] == picks[0] && more[1..] == picks[1..] + [j];
    }
  }

  /** As many picks as there are available clients, one after the other, are one turn of the cycle. */
  method PickRound(selector: RoundRobinSelector, clients: seq<Status>) returns (picks: seq<nat>)
    requires Available in clients
    modifies selector
    ensures picks == Cycle(clients, old(selector.lastIndex) + 1, old(selector.lastIndex) + 1 + |clients|)
    ensures multiset(picks) == multiset(Up(clients))
  {
    hide Cycle, FirstFrom, Picks;
    ghost var lo := selector.lastIndex + 1;
    picks := [];
    assert Picks(clients, lo, []) by { NoPicks(clients, lo); }
    while |picks| < |Up(clients)|
      invariant |picks| <= |Up(clients)| && Picks(clients, lo, picks)
      invariant selector.lastIndex == if picks == [] then lo - 1 else picks[|picks| - 1]
    {
      var r := selector.Pick(clients);
      PicksSnoc(clients, lo, picks, r.index);
      picks := picks + [r.index];
    }
    RoundRobin(clients, lo - 1, picks);
  }

  lemma NoPicks(clients: seq<Status>, lo: nat)
    requires clients != []
    ensures Picks(clients, lo, [])
  {
  }
}
