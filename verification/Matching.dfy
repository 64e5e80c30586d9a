/** Hash-chain match finding and lazy matching over the data to be compressed. */
module Matching {
  import opened Bits

  const ZHASH := 16384
  const MAX_MATCH := 258

  /** How many bytes at p and at i agree, up to 258 and the end of data; k of them
      are known to. */
  function MatchLen(data: seq<byte>, p: nat, i: nat, k: nat): (n: nat)
    requires p <= i && i + k <= |data| && k <= MAX_MATCH
    ensures k <= n <= MAX_MATCH && i + n <= |data|
    decreases |data| - i - k
  {
    if k < MAX_MATCH && i + k < |data| && data[p + k] == data[i + k] then MatchLen(data, p, i, k + 1) else k
  }

  /** The bytes do agree, and the next ones, if any may be counted, do not. */
  lemma {:induction false} MatchLenExact(data: seq<byte>, p: nat, i: nat, k: nat)
    requires p <= i && i + k <= |data| && k <= MAX_MATCH
    ensures var n := MatchLen(data, p, i, k);
            data[p + k..p + n] == data[i + k..i + n] &&
            (n == MAX_MATCH || i + n == |data| || data[p + n] != data[i + n])
    decreases |data| - i - k
  {
    var n := MatchLen(data, p, i, k);
    if k < n {
      MatchLenExact(data, p, i, k + 1);
      assert data[p + k..p + n] == [data[p + k]] + data[p + k + 1..p + n];
      assert data[i + k..i + n] == [data[i + k]] + data[i + k + 1..i + n];
    }
  }

  /** `stbiw__zlib_countm(data + p, data + i, |data| - i)`. */
  method Countm(data: seq<byte>, p: nat, i: nat) returns (n: nat)
    requires p <= i <= |data|
    ensures n == MatchLen(data, p, i, 0)
  {
    n := 0;
    while n < |data| - i && n < MAX_MATCH
      invariant n <= MAX_MATCH && i + n <= |data|
      invariant MatchLen(data, p, i, 0) == MatchLen(data, p, i, n)
    {
      if data[p + n] != data[i + n] {
        break;
      }
      n := n + 1;
    }
  }

  /** The bucket of the three bytes at i; 32-bit arithmetic that wraps. */
  function Bucket(data: seq<byte>, i: nat): (h: nat)
    requires i + 2 < |data|
    ensures h < ZHASH
  {
    var h0 := data[i] + data[i + 1] as int * 256 + data[i + 2] as int * 65536;
    var h1 := Xor(h0, U32(h0 * 8));
    var h2 := U32(h1 + h1 / 32);
    var h3 := Xor(h2, U32(h2 * 16));
    var h4 := U32(h3 + h3 / 131072);
    var h5 := Xor(h4, U32(h4 * 33554432));
    var h6 := U32(h5 + h5 / 64);
    h6 % ZHASH
  }

  /** The bucket depends on the three bytes alone, so a recurrence of them is looked up
      where its earlier occurrences were recorded. */
  lemma SameBytesSameBucket(data: seq<byte>, p: nat, i: nat)
    requires p + 2 < |data| && i + 2 < |data| && data[p..p + 3] == data[i..i + 3]
    ensures Bucket(data, p) == Bucket(data, i)
  {
    var s, t := data[p..p + 3], data[i..i + 3];
    assert s[0] == t[0] && s[1] == t[1] && s[2] == t[2];
    assert data[p] == data[i] && data[p + 1] == data[i + 1] && data[p + 2] == data[i + 2];
  }

  /** Every chain is bounded and refers to positions before n. */
  ghost predicate TableOk(table: seq<seq<nat>>, n: nat, quality: nat) {
    |table| == ZHASH &&
    forall h :: 0 <= h < ZHASH ==> |table[h]| <= 2 * quality && forall p :: p in table[h] ==> p < n
  }

  /** p is a candidate for a match at i: within the 32K window. */
  predicate InWindow(p: nat, i: nat) {
    p < i && p as int > i - 32768
  }

  /** loc is the last candidate of the chain among those with the longest match. */
  ghost predicate LastBest(data: seq<byte>, chain: seq<nat>, i: nat, loc: nat)
    requires i <= |data|
  {
    InWindow(loc, i) && exists j :: LastBestAt(data, chain, i, j) && chain[j] == loc
  }

  ghost predicate LastBestAt(data: seq<byte>, chain: seq<nat>, i: nat, j: int)
    requires i <= |data|
  {
    0 <= j < |chain| && chain[j] < i &&
    forall k :: 0 <= k < |chain| && InWindow(chain[k], i) ==>
      if k <= j then MatchLen(data, chain[k], i, 0) <= MatchLen(data, chain[j], i, 0)
      else MatchLen(data, chain[k], i, 0) < MatchLen(data, chain[j], i, 0)
  }

  /** The best match in a chain: the last of the longest, and none shorter than 3 bytes. */
  method Longest(data: seq<byte>, chain: seq<nat>, i: nat) returns (best: nat, loc: int)
    requires i <= |data|
    requires forall p :: p in chain ==> p < i
    ensures best >= 3 && (loc < 0 ==> best == 3)
    ensures loc >= 0 ==> InWindow(loc, i) && LastBest(data, chain, i, loc) && best == MatchLen(data, loc, i, 0)
    ensures forall p :: p in chain && InWindow(p, i) ==>
              MatchLen(data, p, i, 0) <= best && (loc < 0 ==> MatchLen(data, p, i, 0) < 3)
  {
    hide MatchLen;
    best, loc := 3, -1;
    ghost var at := -1;
    for j := 0 to |chain|
      invariant best >= 3 && (loc < 0 ==> best == 3)
      invariant loc >= 0 ==> 0 <= at < j && chain[at] == loc && InWindow(loc, i) && best == MatchLen(data, loc, i, 0)
      invariant forall k :: 0 <= k < j && InWindow(chain[k], i) ==>
                  MatchLen(data, chain[k], i, 0) <= best && (loc < 0 ==> MatchLen(data, chain[k], i, 0) < 3) &&
                  (loc >= 0 && k > at ==> MatchLen(data, chain[k], i, 0) < best)
    {
      assert chain[j] in chain;
      if chain[j] as int > i - 32768 {
        var d := Countm(data, chain[j], i);
        if d >= best {
          best, loc := d, chain[j];
          at := j;
        }
      }
    }
    assert loc >= 0 ==> LastBestAt(data, chain, i, at);
  }

  /** Some candidate for a match at i is longer than best. */
  ghost predicate Beaten(data: seq<byte>, chain: seq<nat>, i: nat, best: nat)
    requires i <= |data|
  {
    exists p :: p in chain && InWindow(p, i) && MatchLen(data, p, i, 0) > best
  }

  /** Whether some candidate for the next byte beats a match of length best. */
  method NextIsBetter(data: seq<byte>, chain: seq<nat>, i: nat, best: nat) returns (better: bool)
    requires i + 1 <= |data|
    requires forall p :: p in chain ==> p < i + 1
    ensures better <==> Beaten(data, chain, i + 1, best)
  {
    hide MatchLen;
    for j := 0 to |chain|
      invariant forall k :: 0 <= k < j && InWindow(chain[k], i + 1) ==> MatchLen(data, chain[k], i + 1, 0) <= best
    {
      assert chain[j] in chain;
      if chain[j] as int > i - 32767 {
        var e := Countm(data, chain[j], i + 1);
        if e > best {
          assert InWindow(chain[j], i + 1);
          return true;
        }
      }
    }
    return false;
  }

  /** What is sent for position i, given the chain of its bucket and, once i is recorded,
      that of the next position: the best match, unless a longer one follows. */
  ghost predicate Sends(data: seq<byte>, chain: seq<nat>, next: seq<nat>, i: nat, best: nat, loc: int)
    requires i < |data|
  {
    if loc >= 0 then
      LastBest(data, chain, i, loc) && 3 <= best == MatchLen(data, loc, i, 0) && !Beaten(data, next, i + 1, best)
    else
      forall p :: p in chain && InWindow(p, i) ==>
        MatchLen(data, p, i, 0) < 3 || Beaten(data, next, i + 1, MatchLen(data, p, i, 0))
  }

  /** Finds the match at i, records i in its chain, and lets a longer match at the
      next byte win.  loc < 0 asks for a literal. */
  method FindMatch(data: seq<byte>, i: nat, table: array<seq<nat>>, quality: nat) returns (best: nat, loc: int)
    requires i + 3 < |data| && quality >= 5 && TableOk(table[..], i, quality)
    modifies table
    ensures TableOk(table[..], i + 1, quality)
    // Position i is recorded in its own chain and nowhere else,
    ensures var h := Bucket(data, i); table[..] == old(table[..])[h := Pushed(old(table[..])[h], i, quality)]
    // and its earlier candidates decide what is sent.
    ensures loc >= 0 ==> InWindow(loc, i) && 3 <= best == MatchLen(data, loc, i, 0)
    ensures Sends(data, old(table[..])[Bucket(data, i)], table[..][Bucket(data, i + 1)], i, best, loc)
  {
    hide Bucket, MatchLen, LastBest;
    var h := Bucket(data, i);
    best, loc := Longest(data, table[..][h], i);
    Insert(table, h, i, quality);
    if loc >= 0 {
      var better := NextIsBetter(data, table[..][Bucket(data, i + 1)], i, best);
      if better {
        loc := -1;
      }
    }
  }

  /** A chain after i is pushed on it: the older half of a full one is dropped first. */
  function Pushed(chain: seq<nat>, i: nat, quality: nat): (r: seq<nat>)
    requires |chain| <= 2 * quality && quality > 0
    ensures |r| <= 2 * quality
    ensures forall p :: p in r ==> p == i || p in chain
  {
    (if |chain| == 2 * quality then chain[quality..] else chain) + [i]
  }

  method Insert(table: array<seq<nat>>, h: nat, i: nat, quality: nat)
    requires h < ZHASH && quality >= 5 && TableOk(table[..], i, quality)
    modifies table
    ensures TableOk(table[..], i + 1, quality)
    ensures table[..] == old(table[..])[h := Pushed(old(table[..])[h], i, quality)]
  {
    assert table[..][h] == table[h];
    if |table[h]| == 2 * quality {
      table[h] := table[h][quality..];
    }
    table[h] := table[h] + [i];
    assert table[..] == old(table[..])[h := Pushed(old(table[..])[h], i, quality)];
  }

  // ---- The table as a history ----

  /** Positions whose bucket and the next one's exist. */
  ghost predicate Positions(data: seq<byte>, at: seq<nat>) {
    forall k :: 0 <= k < |at| ==> at[k] + 3 < |data|
  }

  /** The chain of bucket h after the positions were recorded in order. */
  ghost function Recorded(data: seq<byte>, at: seq<nat>, h: nat, quality: nat): (chain: seq<nat>)
    requires Positions(data, at) && quality > 0
    ensures |chain| <= 2 * quality
  {
    if at == [] then []
    else
      var i := at[|at| - 1];
      var before := Recorded(data, at[..|at| - 1], h, quality);
      if Bucket(data, i) == h then Pushed(before, i, quality) else before
  }

  /** Every chain is what recording the positions gives. */
  ghost predicate History(table: seq<seq<nat>>, data: seq<byte>, at: seq<nat>, quality: nat)
    requires quality > 0
  {
    Positions(data, at) && |table| == ZHASH && forall h :: 0 <= h < ZHASH ==> table[h] == Recorded(data, at, h, quality)
  }

  lemma HistoryMore(table: seq<seq<nat>>, data: seq<byte>, at: seq<nat>, quality: nat, i: nat)
    requires quality > 0 && History(table, data, at, quality) && i + 3 < |data|
    ensures |table| == ZHASH && |table[Bucket(data, i)]| <= 2 * quality
    ensures History(table[Bucket(data, i) := Pushed(table[Bucket(data, i)], i, quality)], data, at + [i], quality)
  {
    hide Bucket, Pushed;
    assert (at + [i])[..|at|] == at;
  }
}
