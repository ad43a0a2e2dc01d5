/**
 * What the MAC cache and the group table of the frame decider share: each peer owns a fixed number of entries, kept on
 * a list of used entries, oldest first, and a list of free ones.
 */
module RecentSlots {
  import opened Lists

  type Peer = nat

  /** Entry `slot` of the array of a peer. */
  datatype Entry = Entry(peer: Peer, slot: nat)

  /** The entries of `p` are split between the two lists. */
  ghost predicate PoolOk(used: seq<Entry>, free: seq<Entry>, p: Peer, max: nat) {
    && |used| + |free| == max && Distinct(used) && Distinct(free)
    && (forall x :: x in used ==> x !in free && x.peer == p)
    && (forall x :: x in free ==> x.peer == p)
  }

  /** The entries a new peer starts with. */
  function FreshEntries(p: Peer, max: nat): seq<Entry> {
    seq(max, i requires 0 <= i < max => Entry(p, i))
  }

  lemma FreshPool(p: Peer, max: nat)
    ensures PoolOk([], FreshEntries(p, max), p, max)
  {
  }

  lemma PoolRefresh(used: seq<Entry>, free: seq<Entry>, p: Peer, max: nat, e: Entry)
    requires PoolOk(used, free, p, max) && e in used
    ensures PoolOk(Without(used, e) + [e], free, p, max)
    ensures forall x :: x in Without(used, e) + [e] <==> x in used
  {
    hide Without;
  }

  lemma PoolRelease(used: seq<Entry>, free: seq<Entry>, p: Peer, max: nat, e: Entry)
    requires PoolOk(used, free, p, max) && e in used
    ensures PoolOk(Without(used, e), free + [e], p, max) && e !in Without(used, e)
  {
    hide Without;
  }

  lemma PoolTakeFree(used: seq<Entry>, free: seq<Entry>, p: Peer, max: nat)
    requires PoolOk(used, free, p, max) && free != []
    ensures PoolOk(used + [free[0]], free[1..], p, max) && free[0] !in used && |used| < max && Distinct(used)
  {
    assert free == [free[0]] + free[1..];
  }

  lemma PoolRecycle(used: seq<Entry>, free: seq<Entry>, p: Peer, max: nat)
    requires PoolOk(used, free, p, max) && free == [] && max > 0
    ensures |used| == max && used[0] in used && used[0] !in used[1..] && Distinct(used)
    ensures PoolOk(used[1..] + [used[0]], free, p, max)
    ensures forall x :: x in used[1..] + [used[0]] <==> x in used
  {
    assert used == [used[0]] + used[1..];
  }

  lemma PoolMember(used: seq<Entry>, free: seq<Entry>, p: Peer, max: nat, e: Entry)
    requires PoolOk(used, free, p, max) && e in used
    ensures e.peer == p
  {
  }

  lemma PoolPeers(used: seq<Entry>, free: seq<Entry>, p: Peer, max: nat, e: Entry)
    requires PoolOk(used, free, p, max) && e.peer != p
    ensures e !in used && e !in free
  {
  }

  ghost predicate Keyed<K(!new)>(used: seq<Entry>, key: map<Entry, K>) {
    && (forall x :: x in used ==> x in key)
    && (forall x, y :: x in used && y in used && key[x] == key[y] ==> x == y)
  }

  /** The keys of a list of entries, in its order. */
  function Keys<K>(used: seq<Entry>, key: map<Entry, K>): (r: seq<K>)
    requires forall x :: x in used ==> x in key
    ensures |r| == |used| && forall i :: 0 <= i < |used| ==> r[i] == key[used[i]]
    ensures forall x :: x in used ==> key[x] in r
  {
    var r := seq(|used|, i requires 0 <= i < |used| => key[used[i]]);
    assert forall x :: x in used ==> key[x] in r by {
      forall x | x in used ensures key[x] in r {
        var i :| 0 <= i < |used| && used[i] == x;
        assert r[i] == key[x];
      }
    }
    r
  }

  /**
   * The simple model of a bounded recency list: `k` becomes the newest, and the oldest goes only if there is no room.
   */
  function Touch<K(!new, ==)>(s: seq<K>, k: K, max: nat): seq<K>
    requires max > 0
  {
    var rest := Without(s, k);
    (if |rest| == max then rest[1..] else rest) + [k]
  }

  lemma KeysTail<K>(used: seq<Entry>, key: map<Entry, K>)
    requires used != [] && forall x :: x in used ==> x in key
    ensures Keys(used, key) == [key[used[0]]] + Keys(used[1..], key)
    ensures Keys(used, key)[0] == key[used[0]] && Keys(used, key)[1..] == Keys(used[1..], key)
  {
  }

  lemma {:induction false} KeysWithout<K(!new)>(used: seq<Entry>, key: map<Entry, K>, e: Entry)
    requires Distinct(used) && Keyed(used, key) && e in used
    ensures Keys(Without(used, e), key) == Without(Keys(used, key), key[e])
  {
    hide Keys;
    KeysTail(used, key);
    if used[0] != e {
      var rest := Without(used[1..], e);
      KeysWithout(used[1..], key, e);
      assert Without(used, e) == [used[0]] + rest;
      KeysTail([used[0]] + rest, key);
      assert ([used[0]] + rest)[1..] == rest;
    }
  }

  lemma KeysAppend<K>(used: seq<Entry>, key: map<Entry, K>, e: Entry)
    requires (forall x :: x in used ==> x in key) && e in key
    ensures Keys(used + [e], key) == Keys(used, key) + [key[e]]
  {
  }

  lemma KeysSame<K>(used: seq<Entry>, key: map<Entry, K>, key': map<Entry, K>)
    requires forall x :: x in used ==> x in key && x in key' && key[x] == key'[x]
    ensures Keys(used, key) == Keys(used, key')
  {
  }

  lemma KeysHas<K(!new)>(used: seq<Entry>, key: map<Entry, K>, k: K)
    requires forall x :: x in used ==> x in key
    ensures k in Keys(used, key) <==> exists x :: x in used && key[x] == k
  {
    if k in Keys(used, key) {
      var i :| 0 <= i < |used| && Keys(used, key)[i] == k;
      assert used[i] in used;
    }
  }

  /** Refreshing a used entry touches its key. */
  lemma RefreshTouches<K(!new)>(used: seq<Entry>, key: map<Entry, K>, e: Entry, max: nat)
    requires Distinct(used) && Keyed(used, key) && e in used && 0 < max && |used| <= max
    ensures Keys(Without(used, e) + [e], key) == Touch(Keys(used, key), key[e], max)
  {
    KeysWithout(used, key, e);
    KeysAppend(Without(used, e), key, e);
    assert key[e] in Keys(used, key);
  }

  /** Giving a free entry the key `k`, or the oldest used one if none is free, touches `k`. */
  lemma ClaimTouches<K(!new)>(used: seq<Entry>, key: map<Entry, K>, e: Entry, k: K, max: nat)
    requires Distinct(used) && Keyed(used, key) && 0 < max && |used| <= max && k !in Keys(used, key)
    requires if |used| == max then e == used[0] else e !in used
    ensures var kept := if |used| == max then used[1..] else used;
            Keys(kept + [e], key[e := k]) == Touch(Keys(used, key), k, max)
  {
    var kept := if |used| == max then used[1..] else used;
    assert e !in kept;
    KeysAppend(kept, key[e := k], e);
    KeysSame(kept, key, key[e := k]);
    if |used| == max { assert Keys(kept, key) == Keys(used, key)[1..]; }
  }

  // ------------------------------------------------------------------ what is newer

  lemma TouchListed<K(!new)>(s: seq<K>, k: K, m: K, since: set<K>, max: nat)
    requires max > 0 && Distinct(s) && |s| <= max && k != m && m in s && forall x :: x in Newer(s, m) ==> x in since
    ensures m in Touch(s, k, max) ==> forall x :: x in Newer(Touch(s, k, max), m) ==> x in since + {k}
    ensures m in Touch(s, k, max) || |since + {k}| >= max
  {
    hide Without, Newer;
    var rest := Without(s, k);
    forall x | x in Newer(rest, m) ensures x in since { NewerWithout(s, k, m, x); }
    assert m in rest;
    var kept := if |rest| == max then rest[1..] else rest;
    NewerAppend(kept, k, m);
    NewerHead(rest, m);
    if |rest| == max && rest[0] == m { DistinctCount(rest[1..] + [k], since + {k}); }
  }

  lemma TouchNewest<K(!new)>(s: seq<K>, m: K, max: nat)
    requires max > 0 && Distinct(s)
    ensures m in Touch(s, m, max) && Newer(Touch(s, m, max), m) == [] && m !in Without(s, m)
  {
    hide Without, Newer;
    var rest := Without(s, m);
    NewerAppend(rest, m, m);
    if |rest| == max { assert m !in rest[1..]; NewerAppend(rest[1..], m, m); }
  }

  lemma TouchMembers<K(!new)>(s: seq<K>, k: K, m: K, max: nat)
    requires max > 0 && k != m && m !in s
    ensures m !in Touch(s, k, max)
  {
    hide Without;
    var rest := Without(s, k);
    assert m !in rest;
    if |rest| == max { assert m !in rest[1..]; }
  }
}
