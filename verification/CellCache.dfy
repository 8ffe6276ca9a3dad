/**
 The handle cache of the cell store and its eviction sweep (internal/cellstore/cellstore.go).

 The list of recently used cells runs from the most recently used to the least. A sweep holds one
 reading of the clock; requests and opens of other threads are in StoreGate.
 */
module CellCache {
  import opened Bytes

  type Scope = nat
  type Handle = nat

  datatype Entry = Entry(scope: Scope, last: int)

  /** The entries of protected scopes (inside) or of the others, in list order. */
  function Pick(l: seq<Entry>, shield: set<Scope>, inside: bool): seq<Entry>
  {
    if l == [] then []
    else
      var rest := Pick(l[1..], shield, inside);
      if (l[0].scope in shield) == inside then [l[0]] + rest else rest
  }

  /** What a sweep may evict, and what it must keep. */
  function Eligible(l: seq<Entry>, shield: set<Scope>): seq<Entry> { Pick(l, shield, false) }

  function Shielded(l: seq<Entry>, shield: set<Scope>): seq<Entry> { Pick(l, shield, true) }

  predicate IsIdle(e: Entry, ttl: int, now: int) { ttl > 0 && now - e.last >= ttl }

  /** The list names every cached scope once, the most recently used first. */
  ghost predicate Lists(l: seq<Entry>, keys: set<Scope>)
  {
    && (forall i, j | 0 <= i < j < |l| :: l[i].scope != l[j].scope && l[i].last >= l[j].last)
    && (forall i | 0 <= i < |l| :: l[i].scope in keys)
    && |keys| == |l|
  }

  lemma {:induction false} PickConcat(a: seq<Entry>, b: seq<Entry>, shield: set<Scope>, inside: bool)
    ensures Pick(a + b, shield, inside) == Pick(a, shield, inside) + Pick(b, shield, inside)
  {
    if a == [] {
      assert a + b == b;
    } else {
      PickConcat(a[1..], b, shield, inside);
      assert (a + b)[0] == a[0] && (a + b)[1..] == a[1..] + b;
    }
  }

  lemma {:induction false} PickMember(l: seq<Entry>, shield: set<Scope>, inside: bool, e: Entry)
    ensures e in Pick(l, shield, inside) <==> e in l && (e.scope in shield) == inside
  {
    if l != [] {
      PickMember(l[1..], shield, inside, e);
      assert l == [l[0]] + l[1..];
    }
  }

  function Without(l: seq<Entry>, i: nat): seq<Entry>
    requires i < |l|
  {
    l[..i] + l[i + 1..]
  }

  /** Taking out the last eligible entry takes exactly it out of the eligible list. */
  lemma RemoveEligible(l: seq<Entry>, i: nat, shield: set<Scope>)
    requires i < |l| && l[i].scope !in shield && Eligible(l[i + 1..], shield) == []
    ensures Eligible(l, shield) == Eligible(Without(l, i), shield) + [l[i]]
    ensures Shielded(l, shield) == Shielded(Without(l, i), shield)
  {
    Split(l, i, shield, false);
    Split(l, i, shield, true);
  }

  lemma Split(l: seq<Entry>, i: nat, shield: set<Scope>, inside: bool)
    requires i < |l|
    ensures var b := Pick(l[i + 1..], shield, inside);
            && Pick(Without(l, i), shield, inside) == Pick(l[..i], shield, inside) + b
            && Pick(l, shield, inside)
               == Pick(l[..i], shield, inside) + (if (l[i].scope in shield) == inside then [l[i]] else []) + b
  {
    var a, b := l[..i], l[i + 1..];
    PickConcat(a, b, shield, inside);
    PickConcat(a, l[i..], shield, inside);
    assert l == a + l[i..] && l[i..][0] == l[i] && l[i..][1..] == b;
  }

  /** The newest entry of a list that is not idle vouches for all newer ones. */
  lemma NewerNotIdle(l: seq<Entry>, keys: set<Scope>, i: nat, ttl: int, now: int)
    requires Lists(l, keys) && i < |l| && !IsIdle(l[i], ttl, now)
    ensures forall j | 0 <= j <= i :: !IsIdle(l[j], ttl, now)
  {
  }

  lemma WithoutLists(l: seq<Entry>, keys: set<Scope>, i: nat)
    requires Lists(l, keys) && i < |l|
    ensures Lists(Without(l, i), keys - {l[i].scope})
  {
    var l' := Without(l, i);
    assert forall j | 0 <= j < |l'| :: l'[j] == if j < i then l[j] else l[j + 1];
  }

  lemma FrontLists(l: seq<Entry>, keys: set<Scope>, k: Scope, now: int)
    requires Lists(l, keys) && k !in keys && (l == [] || now >= l[0].last)
    ensures Lists([Entry(k, now)] + l, keys + {k})
  {
    var l' := [Entry(k, now)] + l;
    assert forall j | 0 < j < |l'| :: l'[j] == l[j - 1];
  }

  /** Every cached scope has its entry. */
  lemma {:induction false} EntryOf(l: seq<Entry>, keys: set<Scope>, k: Scope)
    requires Lists(l, keys) && k in keys
    ensures exists i :: 0 <= i < |l| && l[i].scope == k
  {
    assert keys != {};
    if l[0].scope != k {
      WithoutLists(l, keys, 0);
      EntryOf(Without(l, 0), keys - {l[0].scope}, k);
      var i :| 0 <= i < |Without(l, 0)| && Without(l, 0)[i].scope == k;
      assert l[i + 1].scope == k;
    }
  }

  class Cache {
    const maxOpen: int
    const idleTtl: int
    var cells: map<Scope, Handle>
    var lru: seq<Entry>
    var busy: map<Scope, nat>
    var opening: set<Scope>
    var evicting: set<Scope>
    var resident: set<Scope>  // the scopes the Pin hook keeps open

    constructor (maxOpen: int, idleTtl: int, resident: set<Scope>)
      ensures Valid() && cells == map[] && this.maxOpen == maxOpen && this.idleTtl == idleTtl
    {
      this.maxOpen, this.idleTtl, this.resident := maxOpen, idleTtl, resident;
      cells, lru, busy, opening, evicting := map[], [], map[], {}, {};
    }

    ghost predicate Valid()
      reads this
    {
      Lists(lru, cells.Keys) && forall k <- busy :: busy[k] > 0
    }

    /** The scopes no sweep touches: busy, opening, being evicted already, or resident. */
    function Shield(): set<Scope>
      reads this
    {
      busy.Keys + opening + evicting + resident
    }

    predicate OverCap()
      reads this
    {
      maxOpen > 0 && |cells.Keys| > maxOpen
    }

    method TakeOut(i: nat)
      requires Valid() && i < |lru|
      modifies `cells, `lru
      ensures Valid()
      ensures lru == Without(old(lru), i) && cells == old(cells) - {old(lru)[i].scope}
    {
      WithoutLists(lru, cells.Keys, i);
      hide Lists;
      var k := lru[i].scope;
      assert cells.Keys - {k} == (cells - {k}).Keys;
      cells, lru := cells - {k}, lru[..i] + lru[i + 1..];
    }

    method ShouldEvict(now: int) returns (r: bool)
      requires Valid()
      ensures r <==> OverCap() || (lru != [] && IsIdle(lru[|lru| - 1], idleTtl, now))
      ensures !r ==> !OverCap() && forall e <- lru :: !IsIdle(e, idleTtl, now)
    {
      r := OverCap();
      if !r && idleTtl > 0 && |lru| > 0 {
        var e := lru[|lru| - 1];
        r := e.scope in cells && now - e.last >= idleTtl;
      }
    }

    /** No unprotected cell is due for eviction. */
    ghost predicate Settled(now: int)
      reads this
    {
      var l := Eligible(lru, Shield());
      l == [] || (!OverCap() && forall e <- l :: !IsIdle(e, idleTtl, now))
    }

    /** The place in the list of the least recently used cell that is due. */
    method Victim(now: int) returns (found: bool, i: nat)
      requires Valid()
      ensures found ==>
                && i < |lru| && lru[i].scope !in Shield() && Eligible(lru[i + 1..], Shield()) == []
                && (OverCap() || IsIdle(lru[i], idleTtl, now))
      ensures !found ==> Settled(now)
    {
      ghost var shield := Shield();
      i := |lru|;
      while i > 0
        invariant 0 <= i <= |lru|
        invariant Eligible(lru[i..], shield) == []
                  || (!OverCap() && forall j | 0 <= j < |lru| && lru[j].scope !in shield :: !IsIdle(lru[j], idleTtl, now))
      {
        i := i - 1;
        assert lru[i..][0] == lru[i] && lru[i..][1..] == lru[i + 1..];
        var k := lru[i].scope;
        if !(k in busy || k in evicting || k in opening || k in resident) {
          if OverCap() || IsIdle(lru[i], idleTtl, now) {
            return true, i;
          }
          NewerNotIdle(lru, cells.Keys, i, idleTtl, now);
          if Eligible(lru[i + 1..], shield) == [] { QuietTail(lru, i + 1, shield); }
        }
      }
      assert lru[0..] == lru;
      forall e | e in Eligible(lru, shield) ensures e in lru && e.scope !in shield { PickMember(lru, shield, false, e); }
      found := false;
    }

    /**
     Evicts the least recently used cell that is unprotected and, unless the cap is exceeded, idle.
     Nothing is evicted only when no unprotected cell is due.
     */
    method EvictOne(now: int) returns (victim: Option<Scope>)
      requires Valid()
      modifies `cells, `lru, `evicting
      ensures Valid() && evicting == old(evicting)
      ensures Shielded(lru, Shield()) == Shielded(old(lru), Shield())
      ensures victim.Some? ==>
                var l := Eligible(old(lru), Shield());
                && |l| > 0 && l[|l| - 1].scope == victim.value && Eligible(lru, Shield()) == l[..|l| - 1]
                && (old(OverCap()) || IsIdle(l[|l| - 1], idleTtl, now))
                && cells == old(cells) - {victim.value}
      ensures |cells.Keys| == |old(cells).Keys| - (if victim.Some? then 1 else 0)
      ensures victim.None? ==> cells == old(cells) && lru == old(lru) && Settled(now)
    {
      var found, i := Victim(now);
      if !found { return None; }
      RemoveEligible(lru, i, Shield());
      hide Lists, Pick, IsIdle;
      var k := lru[i].scope;
      evicting := evicting + {k};
      TakeOut(i);
      evicting := evicting - {k};
      return Some(k);
    }

    /**
     A sweep evicts the oldest unprotected cells and no others, and exactly as many as are due: it
     ends when none is due, and its last victim was over the cap or idle.
     */
    method Sweep(now: int) returns (evicted: nat)
      requires Valid()
      modifies `cells, `lru, `evicting
      ensures Valid() && evicting == old(evicting) && Settled(now)
      ensures Shielded(lru, Shield()) == Shielded(old(lru), Shield())
      ensures var l := Eligible(old(lru), Shield());
              && evicted <= |l| && Eligible(lru, Shield()) == l[..|l| - evicted]
              && (evicted > 0 ==> (maxOpen > 0 && |cells.Keys| + 1 > maxOpen) || IsIdle(l[|l| - evicted], idleTtl, now))
      ensures |cells.Keys| == |old(cells).Keys| - evicted
    {
      hide Pick, IsIdle;
      evicted := 0;
      ghost var all := Eligible(lru, Shield());
      while true
        invariant Valid() && evicting == old(evicting)
        invariant Shielded(lru, Shield()) == Shielded(old(lru), Shield())
        invariant evicted <= |all| && Eligible(lru, Shield()) == all[..|all| - evicted]
        invariant |cells.Keys| == |old(cells).Keys| - evicted
        invariant evicted > 0 ==> (maxOpen > 0 && |cells.Keys| + 1 > maxOpen) || IsIdle(all[|all| - evicted], idleTtl, now)
        decreases |cells.Keys|
      {
        var due := ShouldEvict(now);
        if !due {
          forall e | e in Eligible(lru, Shield()) ensures e in lru { PickMember(lru, Shield(), false, e); }
          return;
        }
        var victim := EvictOne(now);
        if victim.None? { return; }
        evicted := evicted + 1;
      }
    }

    /** A hit on a cached cell makes it the most recently used; nothing else moves. */
    method Touch(k: Scope, now: int)
      requires Valid() && (lru == [] || now >= lru[0].last)
      modifies `lru
      ensures Valid()
      ensures k !in cells ==> lru == old(lru)
      ensures k in cells ==>
                exists i :: 0 <= i < |old(lru)| && old(lru)[i].scope == k && lru == [Entry(k, now)] + Without(old(lru), i)
    {
      if k !in cells { return; }
      EntryOf(lru, cells.Keys, k);
      var i: nat :| i < |lru| && lru[i].scope == k;
      var rest := lru[..i] + lru[i + 1..];
      WithoutLists(lru, cells.Keys, i);
      FrontLists(rest, cells.Keys - {k}, k, now);
      assert cells.Keys - {k} + {k} == cells.Keys;
      lru := [Entry(k, now)] + rest;
    }

    /** The end of a cold open: the new handle enters as the most recently used. */
    method Publish(k: Scope, h: Handle, now: int)
      requires Valid() && k !in cells && (lru == [] || now >= lru[0].last)
      modifies `cells, `lru
      ensures Valid() && cells == old(cells)[k := h] && lru == [Entry(k, now)] + old(lru)
    {
      FrontLists(lru, cells.Keys, k, now);
      hide Lists;
      assert cells[k := h].Keys == cells.Keys + {k};
      cells := cells[k := h];
      lru := [Entry(k, now)] + lru;
    }
  }

  /** Nothing eligible behind i: then nothing protected is asked about there. */
  lemma {:induction false} QuietTail(l: seq<Entry>, i: nat, shield: set<Scope>)
    requires i <= |l| && Eligible(l[i..], shield) == []
    ensures forall j | i <= j < |l| :: l[j].scope in shield
  {
    forall j | i <= j < |l| ensures l[j].scope in shield {
      assert l[i..][j - i] == l[j];
      PickMember(l[i..], shield, false, l[j]);
    }
  }
}
