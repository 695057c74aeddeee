/** The intrusive lists that thread the slots of the advertisement table: links are fields
    of the slots, here arrays indexed by slot, and NONE is the null pointer. */
module SlotLists {
  import opened Common

  const NONE: int := -1

  /** A singly linked tail queue (STAILQ) with a membership flag in each slot. */
  class SlotQueue {
    const link: array<int>
    const member: array<bool>
    var first: int
    var last: int
    ghost var elems: seq<nat>

    ghost predicate Valid()
      reads this, link, member
    {
      && link.Length == member.Length
      && Distinct(elems)
      && (forall i :: 0 <= i < |elems| ==> elems[i] < link.Length)
      && (forall s :: 0 <= s < member.Length ==> (member[s] <==> s in elems))
      && (elems == [] ==> first == NONE && last == NONE)
      && (elems != [] ==> first == elems[0] && last == elems[|elems| - 1] && link[last] == NONE)
      && (forall i :: 0 <= i < |elems| - 1 ==> link[elems[i]] == elems[i + 1])
    }

    constructor (size: nat)
      ensures Valid() && elems == [] && link.Length == size && fresh(link) && fresh(member)
    {
      link := new int[size];
      member := new bool[size](_ => false);
      first, last := NONE, NONE;
      elems := [];
    }

    method InsertTail(s: nat)
      requires Valid() && s < link.Length && !member[s]
      modifies this, link, member
      ensures Valid() && elems == old(elems) + [s]
    {
      link[s] := NONE;
      if last == NONE {
        first := s;
      } else {
        link[last] := s;
      }
      last := s;
      member[s] := true;
      elems := elems + [s];
    }

    method RemoveHead() returns (s: nat)
      requires Valid() && elems != []
      modifies this, link, member
      ensures Valid() && s == old(elems)[0] && elems == old(elems)[1..]
    {
      s := first;
      first := link[s];
      if first == NONE {
        last := NONE;
      }
      member[s] := false;
      elems := elems[1..];
      assert old(elems) == [s] + elems;
    }
  }

  lemma WithoutPlaces(c: seq<nat>, at: nat)
    requires Distinct(c) && at < |c|
    ensures Distinct(Without(c, at)) && |Without(c, at)| == |c| - 1
    ensures forall i :: 0 <= i < |c| - 1 ==> Without(c, at)[i] == c[if i < at then i else i + 1]
  {
  }

  /** A doubly linked tail queue (TAILQ) of slots. */
  class SlotDeque {
    const next: array<int>
    const prev: array<int>
    var first: int
    var last: int
    ghost var elems: seq<nat>

    ghost predicate Valid()
      reads this, next, prev
    {
      && next != prev && next.Length == prev.Length
      && Distinct(elems)
      && (forall i :: 0 <= i < |elems| ==> elems[i] < next.Length)
      && (elems == [] ==> first == NONE && last == NONE)
      && (elems != [] ==> first == elems[0] && last == elems[|elems| - 1]
                          && next[last] == NONE && prev[first] == NONE)
      && (forall i :: 0 <= i < |elems| - 1 ==> next[elems[i]] == elems[i + 1])
      && (forall i :: 0 < i < |elems| ==> prev[elems[i]] == elems[i - 1])
    }

    constructor (size: nat)
      ensures Valid() && elems == [] && next.Length == size && fresh(next) && fresh(prev)
    {
      next := new int[size];
      prev := new int[size];
      first, last := NONE, NONE;
      elems := [];
    }

    method InsertTail(s: nat)
      requires Valid() && s < next.Length && s !in elems
      modifies this, next, prev
      ensures Valid() && elems == old(elems) + [s]
    {
      next[s] := NONE;
      prev[s] := last;
      if last == NONE {
        first := s;
      } else {
        next[last] := s;
      }
      last := s;
      elems := elems + [s];
    }

    method InsertHead(s: nat)
      requires Valid() && s < next.Length && s !in elems
      modifies this, next, prev
      ensures Valid() && elems == [s] + old(elems)
    {
      next[s] := first;
      if first == NONE {
        last := s;
      } else {
        prev[first] := s;
      }
      first := s;
      prev[s] := NONE;
      elems := [s] + elems;
      assert forall i :: 1 <= i < |elems| ==> elems[i] == old(elems)[i - 1];
    }

    method Remove(s: nat, ghost at: nat)
      requires Valid() && at < |elems| && elems[at] == s
      modifies this, next, prev
      ensures Valid() && elems == Without(old(elems), at)
    {
      var n, p := next[s], prev[s];
      assert n == if at + 1 < |elems| then elems[at + 1] else NONE;
      assert p == if at > 0 then elems[at - 1] else NONE;
      if n == NONE {
        last := p;
      } else {
        prev[n] := p;
      }
      if p == NONE {
        first := n;
      } else {
        next[p] := n;
      }
      ghost var c := elems;
      WithoutPlaces(c, at);
      elems := Without(c, at);
    }
  }

  /** The links spell out the sequence c between a list's first and last slot. */
  ghost predicate Chained(first: int, last: int, link: seq<int>, c: seq<nat>) {
    && Distinct(c)
    && (forall i :: 0 <= i < |c| ==> c[i] < |link|)
    && (c == [] ==> first == NONE && last == NONE)
    && (c != [] ==> first == c[0] && last == c[|c| - 1] && link[c[|c| - 1]] == NONE)
    && (forall i :: 0 <= i < |c| - 1 ==> link[c[i]] == c[i + 1])
  }

  lemma ChainedFrame(first: int, last: int, link: seq<int>, link': seq<int>, c: seq<nat>)
    requires Chained(first, last, link, c) && |link'| == |link|
    requires forall i :: 0 <= i < |c| ==> link'[c[i]] == link[c[i]]
    ensures Chained(first, last, link', c)
  {
  }

  lemma ChainedAppend(first: int, last: int, link: seq<int>, c: seq<nat>, s: nat)
    requires Chained(first, last, link, c) && s < |link| && s !in c
    ensures c == [] ==> Chained(s, s, link[s := NONE], [s])
    ensures c != [] ==> 0 <= last < |link| && Chained(first, s, link[s := NONE][last := s], c + [s])
  {
  }

  /** Taking a slot out of a chain: of its head, or behind the slot before it. */
  lemma ChainedWithout(first: int, last: int, link: seq<int>, c: seq<nat>, at: nat)
    requires Chained(first, last, link, c) && at < |c|
    ensures at == 0 ==>
              Chained(link[c[0]], if link[c[0]] == NONE then NONE else last, link, Without(c, 0))
    ensures at > 0 ==>
              var link' := link[c[at - 1] := link[c[at]]];
              Chained(first, if link[c[at]] == NONE then c[at - 1] else last, link', Without(c, at))
  {
    var w := Without(c, at);
    assert forall i :: 0 <= i < |w| ==> w[i] == c[if i < at then i else i + 1];
    assert link[c[at]] == if at + 1 < |c| then c[at + 1] else NONE;
  }

  lemma WithoutMembers(c: seq<nat>, at: nat)
    requires Distinct(c) && at < |c|
    ensures Distinct(Without(c, at))
    ensures forall x :: x in Without(c, at) <==> x in c && x != c[at]
  {
    var w := Without(c, at);
    assert forall i :: 0 <= i < |w| ==> w[i] == c[if i < at then i else i + 1];
    forall x | x in c && x != c[at] ensures x in w {
      var i :| 0 <= i < |c| && c[i] == x;
      assert w[if i < at then i else i - 1] == x;
    }
  }

  /** Each slot is in the chain of its bucket, and in no other chain. */
  ghost predicate AtHome(chains: seq<seq<nat>>, home: seq<int>) {
    && (forall b, i :: 0 <= b < |chains| && 0 <= i < |chains[b]| ==>
                         chains[b][i] < |home| && home[chains[b][i]] == b)
    && (forall s :: 0 <= s < |home| && home[s] != NONE ==> 0 <= home[s] < |chains| && s in chains[home[s]])
  }

  lemma AtHomeAppend(chains: seq<seq<nat>>, home: seq<int>, b: nat, s: nat)
    requires AtHome(chains, home) && b < |chains| && s < |home| && home[s] == NONE
    ensures AtHome(chains[b := chains[b] + [s]], home[s := b])
  {
  }

  lemma AtHomeWithout(chains: seq<seq<nat>>, home: seq<int>, b: nat, at: nat)
    requires AtHome(chains, home) && b < |chains| && at < |chains[b]| && Distinct(chains[b])
    ensures AtHome(chains[b := Without(chains[b], at)], home[chains[b][at] := NONE])
  {
    WithoutMembers(chains[b], at);
    var w := Without(chains[b], at);
    assert forall i :: 0 <= i < |w| ==> w[i] in w;
  }

  /** The chains of a hash table: one singly linked tail queue per bucket, all of them
      using the same link field of a slot. */
  class HashChains {
    const link: array<int>
    const first: array<int>
    const last: array<int>
    ghost var chains: seq<seq<nat>>
    /** The bucket that holds a slot, or NONE. */
    ghost var home: seq<int>

    ghost predicate Valid()
      reads this, link, first, last
    {
      && link != first && link != last && first != last
      && |chains| == first.Length == last.Length
      && |home| == link.Length
      && (forall b :: 0 <= b < |chains| ==> Chained(first[b], last[b], link[..], chains[b]))
      && AtHome(chains, home)
    }

    constructor (size: nat, buckets: nat)
      ensures Valid() && link.Length == |home| == size && |chains| == buckets
      ensures forall s :: 0 <= s < size ==> home[s] == NONE
      ensures fresh(link) && fresh(first) && fresh(last)
    {
      link := new int[size];
      first := new int[buckets](_ => NONE);
      last := new int[buckets](_ => NONE);
      chains := seq(buckets, _ => []);
      home := seq(size, _ => NONE);
    }

    lemma OthersFrame(b: nat, touched: set<int>, links: seq<int>)
      requires |chains| == first.Length == last.Length && |links| == link.Length
      requires forall o :: 0 <= o < |chains| && o != b ==> Chained(first[o], last[o], links, chains[o])
      requires forall x :: 0 <= x < |links| && x !in touched ==> link[x] == links[x]
      requires forall o, i :: 0 <= o < |chains| && o != b && 0 <= i < |chains[o]| ==> chains[o][i] !in touched
      ensures forall o :: 0 <= o < |chains| && o != b ==> Chained(first[o], last[o], link[..], chains[o])
    {
      forall o | 0 <= o < |chains| && o != b ensures Chained(first[o], last[o], link[..], chains[o]) {
        assert Chained(first[o], last[o], links, chains[o]);
        ChainedFrame(first[o], last[o], links, link[..], chains[o]);
      }
    }

    method InsertTail(b: nat, s: nat)
      requires Valid() && b < |chains| && s < |home| && home[s] == NONE
      modifies this, link, first, last
      ensures Valid() && home == old(home)[s := b] && |chains| == |old(chains)|
    {
      ghost var c, links, tail := chains[b], link[..], last[b];
      assert Chained(first[b], last[b], links, c);
      ChainedAppend(first[b], last[b], links, c, s);
      link[s] := NONE;
      if last[b] == NONE {
        first[b] := s;
        assert link[..] == links[s := NONE];
      } else {
        link[last[b]] := s;
        assert link[..] == links[s := NONE][tail := s];
      }
      last[b] := s;
      assert Chained(first[b], last[b], link[..], c + [s]);
      OthersFrame(b, {s, tail}, links);
      AtHomeAppend(chains, home, b, s);
      chains := chains[b := c + [s]];
      home := home[s := b];
    }

    /** The slot before s in its chain, found by walking the chain. */
    method Predecessor(b: nat, s: nat, ghost at: nat) returns (cur: int)
      requires Valid() && b < |chains| && 0 < at < |chains[b]| && chains[b][at] == s
      ensures cur == chains[b][at - 1]
    {
      ghost var c := chains[b];
      assert Chained(first[b], last[b], link[..], c);
      cur := first[b];
      ghost var i := 0;
      while link[cur] != s
        invariant 0 <= i < at && cur == c[i]
        decreases at - i
      {
        cur := link[cur];
        i := i + 1;
      }
      assert c[i + 1] == c[at];
    }

    /** Takes the first slot out of a chain. */
    method UnlinkHead(b: nat)
      requires Valid() && b < |chains| && chains[b] != []
      modifies first, last
      ensures Chained(first[b], last[b], link[..], Without(chains[b], 0))
      ensures forall o :: 0 <= o < |chains| && o != b ==> first[o] == old(first[o]) && last[o] == old(last[o])
    {
      assert Chained(first[b], last[b], link[..], chains[b]);
      ChainedWithout(first[b], last[b], link[..], chains[b], 0);
      first[b] := link[first[b]];
      if first[b] == NONE {
        last[b] := NONE;
      }
    }

    /** Takes a slot out of a chain, behind another one. */
    method UnlinkBehind(b: nat, s: nat, ghost at: nat)
      requires Valid() && b < |chains| && 0 < at < |chains[b]| && chains[b][at] == s
      modifies link, last
      ensures Chained(first[b], last[b], link[..], Without(chains[b], at))
      ensures link[..] == old(link[..])[chains[b][at - 1] := old(link[s])]
      ensures forall o :: 0 <= o < |chains| && o != b ==> last[o] == old(last[o])
    {
      ghost var c, links := chains[b], link[..];
      assert Chained(first[b], last[b], links, c);
      ChainedWithout(first[b], last[b], links, c, at);
      var cur := Predecessor(b, s, at);
      link[cur] := link[s];
      if link[cur] == NONE {
        last[b] := cur;
      }
      assert link[..] == links[cur := links[s]];
    }

    /** Takes a slot out of its chain. */
    method Unlink(b: nat, s: nat, ghost at: nat)
      requires Valid() && b < |chains| && at < |chains[b]| && chains[b][at] == s
      modifies link, first, last
      ensures Chained(first[b], last[b], link[..], Without(chains[b], at))
      ensures forall x :: 0 <= x < link.Length && (at == 0 || x != chains[b][at - 1]) ==> link[x] == old(link[x])
      ensures forall o :: 0 <= o < |chains| && o != b ==> first[o] == old(first[o]) && last[o] == old(last[o])
    {
      assert Chained(first[b], last[b], link[..], chains[b]);
      if first[b] == s {
        assert at == 0;
        UnlinkHead(b);
      } else {
        UnlinkBehind(b, s, at);
      }
    }

    method Remove(b: nat, s: nat)
      requires Valid() && b < |chains| && s < |home| && home[s] == b
      modifies this, link, first, last
      ensures Valid() && home == old(home)[s := NONE] && |chains| == |old(chains)|
    {
      ghost var c, links := chains[b], link[..];
      ghost var at :| 0 <= at < |c| && c[at] == s;
      assert forall o :: 0 <= o < |chains| ==> Chained(first[o], last[o], links, chains[o]);
      Unlink(b, s, at);
      OthersFrame(b, if at == 0 then {} else {c[at - 1]}, links);
      AtHomeWithout(chains, home, b, at);
      chains := chains[b := Without(c, at)];
      home := home[s := NONE];
    }
  }
}
