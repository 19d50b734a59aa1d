/** The kill ring: entries bounded in number and in UTF-8 bytes, cut at code points, the oldest dropped first. */
module KillRing {
  import opened Results

  // ---- UTF-8 length of UTF-16 text ----

  type Unit = u: nat | u < 0x10000

  type Text = seq<Unit>

  predicate High(u: Unit) {
    0xD800 <= u <= 0xDBFF
  }

  predicate Low(u: Unit) {
    0xDC00 <= u <= 0xDFFF
  }

  const REPLACEMENT: Unit := 0xFFFD

  /** The code point of a surrogate pair. */
  function Paired(high: Unit, low: Unit): (c: nat)
    requires High(high) && Low(low)
    ensures 0x10000 <= c <= 0x10FFFF
  {
    0x10000 + (high - 0xD800) * 0x400 + (low - 0xDC00)
  }

  /** The code points of a text; half of a pair becomes the replacement character. */
  function CodePoints(s: Text): seq<nat> {
    if s == [] then []
    else if |s| >= 2 && High(s[0]) && Low(s[1]) then [Paired(s[0], s[1])] + CodePoints(s[2..])
    else [if High(s[0]) || Low(s[0]) then REPLACEMENT else s[0]] + CodePoints(s[1..])
  }

  /** Octets of a code point (RFC 3629, section 3). */
  function Octets(c: nat): nat {
    if c <= 0x7F then 1 else if c <= 0x7FF then 2 else if c <= 0xFFFF then 3 else 4
  }

  function TotalOctets(points: seq<nat>): nat {
    if points == [] then 0 else Octets(points[0]) + TotalOctets(points[1..])
  }

  function ByteLength(s: Text): nat {
    TotalOctets(CodePoints(s))
  }

  lemma ByteLengthStep(s: Text)
    requires s != []
    ensures ByteLength(s) ==
      if |s| >= 2 && High(s[0]) && Low(s[1]) then 4 + ByteLength(s[2..])
      else Octets(if High(s[0]) || Low(s[0]) then REPLACEMENT else s[0]) + ByteLength(s[1..])
  {
    var points := CodePoints(s);
    if |s| >= 2 && High(s[0]) && Low(s[1]) {
      assert points[1..] == CodePoints(s[2..]);
    } else {
      assert points[1..] == CodePoints(s[1..]);
    }
  }

  /** Cutting between the halves of a pair costs two bytes, cutting elsewhere none. */
  lemma {:induction false} ByteLengthConcat(a: Text, b: Text)
    ensures ByteLength(a + b) + (if a != [] && b != [] && High(a[|a| - 1]) && Low(b[0]) then 2 else 0)
      == ByteLength(a) + ByteLength(b)
    decreases |a|
  {
    hide ByteLength;
    NothingLong();
    if a == [] {
      assert a + b == b;
    } else {
      ByteLengthStep(a);
      ByteLengthStep(a + b);
      if |a| >= 2 {
        ByteLengthConcat(a[1..], b);
        assert (a + b)[1..] == a[1..] + b;
        ByteLengthConcat(a[2..], b);
        assert (a + b)[2..] == a[2..] + b;
      } else {
        assert (a + b)[1..] == b;
        if b != [] {
          ByteLengthStep(b);
          assert (a + b)[2..] == b[1..];
        }
      }
    }
  }

  lemma NothingLong()
    ensures ByteLength([]) == 0
  {}

  lemma UnitLong(u: Unit)
    ensures 1 <= ByteLength([u]) <= 3 && ((High(u) || Low(u)) ==> ByteLength([u]) == 3)
  {
    ByteLengthStep([u]);
    NothingLong();
  }

  /** The last `n` units, or the first. */
  function Taken(s: Text, n: nat, keepEnd: bool): Text
    requires n <= |s|
  {
    if keepEnd then s[|s| - n..] else s[..n]
  }

  /** A longer cut has more bytes. */
  lemma {:induction false} LongerCut(s: Text, n: nat, m: nat, keepEnd: bool)
    requires n <= m <= |s|
    ensures ByteLength(Taken(s, n, keepEnd)) <= ByteLength(Taken(s, m, keepEnd))
    decreases m
  {
    hide ByteLength;
    if n < m {
      LongerCut(s, n, m - 1, keepEnd);
      var u := if keepEnd then s[|s| - m] else s[m - 1];
      UnitLong(u);
      if keepEnd {
        assert Taken(s, m, true) == [u] + Taken(s, m - 1, true);
        ByteLengthConcat([u], Taken(s, m - 1, true));
      } else {
        assert Taken(s, m, false) == Taken(s, m - 1, false) + [u];
        ByteLengthConcat(Taken(s, m - 1, false), [u]);
      }
    }
  }

  // ---- Cutting to a number of bytes ----

  /** No half of a surrogate pair without the other. */
  predicate WellFormed(s: Text) {
    && (forall i | 0 <= i < |s| && High(s[i]) :: i + 1 < |s| && Low(s[i + 1]))
    && (forall i | 0 <= i < |s| && Low(s[i]) :: i > 0 && High(s[i - 1]))
  }

  /** The greatest cut within the budget. */
  ghost predicate Longest(s: Text, maxBytes: nat, keepEnd: bool, n: nat) {
    n <= |s| && forall m | 0 <= m <= |s| :: ByteLength(Taken(s, m, keepEnd)) <= maxBytes <==> m <= n
  }

  /** A cut that would begin or end with half of a pair loses that half. */
  function Trimmed(s: Text, keepEnd: bool): Text {
    if keepEnd && s != [] && Low(s[0]) then s[1..]
    else if !keepEnd && s != [] && High(s[|s| - 1]) then s[..|s| - 1]
    else s
  }

  /** A text within the budget is kept whole; of another its longest cut is kept, trimmed. */
  ghost predicate Clamps(value: Text, maxBytes: nat, keepEnd: bool, result: Text) {
    if ByteLength(value) <= maxBytes then result == value
    else exists n: nat :: Longest(value, maxBytes, keepEnd, n) && result == Trimmed(Taken(value, n, keepEnd), keepEnd)
  }

  method ClampUtf8(value: Text, maxBytes: nat, keepEnd: bool) returns (result: Text)
    ensures Clamps(value, maxBytes, keepEnd, result)
    ensures ByteLength(result) <= maxBytes
  {
    hide ByteLength, Trimmed;
    if ByteLength(value) <= maxBytes { return value; }
    NothingLong();
    assert Taken(value, 0, keepEnd) == [] && Taken(value, |value|, keepEnd) == value;
    var low: nat, high: nat := 0, |value|;
    while low < high
      invariant low <= high <= |value|
      invariant ByteLength(Taken(value, low, keepEnd)) <= maxBytes
      invariant forall m | high < m <= |value| :: ByteLength(Taken(value, m, keepEnd)) > maxBytes
    {
      var middle := (low + high + 1) / 2;
      if ByteLength(Taken(value, middle, keepEnd)) <= maxBytes {
        low := middle;
      } else {
        forall m | middle <= m <= |value|
          ensures ByteLength(Taken(value, m, keepEnd)) > maxBytes
        {
          LongerCut(value, middle, m, keepEnd);
        }
        high := middle - 1;
      }
    }
    forall m | 0 <= m <= low
      ensures ByteLength(Taken(value, m, keepEnd)) <= maxBytes
    {
      LongerCut(value, m, low, keepEnd);
    }
    assert Longest(value, maxBytes, keepEnd, low);
    result := Trimmed(Taken(value, low, keepEnd), keepEnd);
    TrimmedShorter(Taken(value, low, keepEnd), keepEnd);
  }

  lemma TrimmedShorter(s: Text, keepEnd: bool)
    ensures ByteLength(Trimmed(s, keepEnd)) <= ByteLength(s)
  {
    hide ByteLength;
    assert Taken(s, |s|, keepEnd) == s;
    if s != [] {
      LongerCut(s, |s| - 1, |s|, keepEnd);
    }
  }

  /** Of a well-formed text the longest well-formed cut within the budget is kept: never half of a pair. */
  lemma ClampWellFormed(value: Text, maxBytes: nat, keepEnd: bool, result: Text)
    requires WellFormed(value) && Clamps(value, maxBytes, keepEnd, result)
    ensures WellFormed(result)
    ensures |result| <= |value| && result == Taken(value, |result|, keepEnd)
    ensures forall m | 0 <= m <= |value| && WellFormed(Taken(value, m, keepEnd))
      && ByteLength(Taken(value, m, keepEnd)) <= maxBytes :: m <= |result|
  {
    hide ByteLength;
    if ByteLength(value) > maxBytes {
      var n: nat :| Longest(value, maxBytes, keepEnd, n) && result == Trimmed(Taken(value, n, keepEnd), keepEnd);
      CutWellFormed(value, n, keepEnd);
    }
  }

  lemma CutWellFormed(s: Text, n: nat, keepEnd: bool)
    requires WellFormed(s) && n <= |s|
    ensures var cut := Taken(s, n, keepEnd);
      var r := Trimmed(cut, keepEnd);
      && WellFormed(r) && r == Taken(s, |r|, keepEnd)
      && |r| == (if WellFormed(cut) then n else n - 1)
  {
    var cut := Taken(s, n, keepEnd);
    if keepEnd {
      assert forall i | 0 <= i < n :: cut[i] == s[|s| - n + i];
      if n > 0 && Low(cut[0]) {
        assert cut[1..] == Taken(s, n - 1, true);
      }
    } else {
      assert forall i | 0 <= i < n :: cut[i] == s[i];
      if n > 0 && High(cut[n - 1]) {
        assert cut[..n - 1] == Taken(s, n - 1, false);
      }
    }
  }

  // ---- The ring ----

  const DEFAULT_MAX_KILL_RING_ENTRIES: nat := 60
  const DEFAULT_MAX_KILL_RING_BYTES: nat := 1024 * 1024

  /** A limit given by a caller; `None` stands for a number that is not finite. */
  function PositiveLimit(value: Option<real>, fallback: nat): (limit: nat)
    requires fallback > 0
    ensures limit > 0
  {
    if value.None? || value.value <= 0.0 then fallback else if value.value.Floor < 1 then 1 else value.value.Floor
  }

  function Bytes(ring: seq<Text>): nat {
    if ring == [] then 0 else ByteLength(ring[0]) + Bytes(ring[1..])
  }

  lemma {:induction false} BytesConcat(a: seq<Text>, b: seq<Text>)
    ensures Bytes(a + b) == Bytes(a) + Bytes(b)
  {
    hide ByteLength;
    if a == [] {
      assert a + b == b;
    } else {
      BytesConcat(a[1..], b);
      assert (a + b)[1..] == a[1..] + b;
    }
  }

  predicate Within(ring: seq<Text>, maxEntries: nat, maxBytes: nat) {
    |ring| <= maxEntries && Bytes(ring) <= maxBytes
  }

  /** Only as many of the oldest entries are gone as the limits demand. */
  ghost predicate Kept(all: seq<Text>, ring: seq<Text>, maxEntries: nat, maxBytes: nat) {
    && Within(ring, maxEntries, maxBytes)
    && |ring| <= |all| && ring == all[|all| - |ring|..]
    && (|ring| < |all| ==> !Within(all[|all| - |ring| - 1..], maxEntries, maxBytes))
  }

  function Rotated(ring: seq<Text>): seq<Text> {
    if |ring| > 1 then [ring[|ring| - 1]] + ring[..|ring| - 1] else ring
  }

  function RotatedTimes(ring: seq<Text>, n: nat): seq<Text> {
    if n == 0 then ring else Rotated(RotatedTimes(ring, n - 1))
  }

  lemma {:induction false} RotatedSplit(ring: seq<Text>, n: nat)
    requires n <= |ring|
    ensures RotatedTimes(ring, n) == ring[|ring| - n..] + ring[..|ring| - n]
  {
    if n > 0 {
      RotatedSplit(ring, n - 1);
      var before := ring[|ring| - (n - 1)..] + ring[..|ring| - (n - 1)];
      assert before[|ring| - 1] == ring[|ring| - n];
    }
  }

  /** As many rotations as there are entries lead back to the start. */
  lemma RotatedRound(ring: seq<Text>)
    ensures RotatedTimes(ring, |ring|) == ring
  {
    RotatedSplit(ring, |ring|);
  }

  lemma RotatedBytes(ring: seq<Text>)
    ensures Bytes(Rotated(ring)) == Bytes(ring) && |Rotated(ring)| == |ring|
    ensures multiset(Rotated(ring)) == multiset(ring)
  {
    hide ByteLength;
    if |ring| > 1 {
      var last, before := [ring[|ring| - 1]], ring[..|ring| - 1];
      assert ring == before + last;
      BytesConcat(before, last);
      BytesConcat(last, before);
    }
  }

  class KillRing {
    var ring: seq<Text>
    var totalBytes: int
    const maxEntries: nat
    const maxBytes: nat

    /** The byte count is exact and both limits hold. */
    ghost predicate Valid()
      reads this
    {
      && maxEntries > 0 && maxBytes > 0
      && totalBytes == Bytes(ring) && Within(ring, maxEntries, maxBytes)
    }

    constructor (maxEntries: Option<real>, maxBytes: Option<real>)
      ensures Valid() && ring == []
      ensures this.maxEntries == PositiveLimit(maxEntries, DEFAULT_MAX_KILL_RING_ENTRIES)
      ensures this.maxBytes == PositiveLimit(maxBytes, DEFAULT_MAX_KILL_RING_BYTES)
    {
      ring, totalBytes := [], 0;
      this.maxEntries := PositiveLimit(maxEntries, DEFAULT_MAX_KILL_RING_ENTRIES);
      this.maxBytes := PositiveLimit(maxBytes, DEFAULT_MAX_KILL_RING_BYTES);
    }

    /** The new newest entry: the text, joined to the newest one when kills accumulate, cut to the byte limit. */
    ghost predicate Newest(before: seq<Text>, text: Text, prepend: bool, accumulate: bool, entry: Text) {
      if accumulate && before != [] then
        var last := before[|before| - 1];
        Clamps(if prepend then text + last else last + text, maxBytes, !prepend, entry)
      else Clamps(text, maxBytes, true, entry)
    }

    method Push(text: Text, prepend: bool, accumulate: bool)
      requires Valid()
      modifies this
      ensures Valid()
      ensures text == [] ==> ring == old(ring)
      ensures text != [] ==>
        && ring != [] && Newest(old(ring), text, prepend, accumulate, ring[|ring| - 1])
        && Kept((if accumulate && old(ring) != [] then old(ring)[..|old(ring)| - 1] else old(ring))
               + [ring[|ring| - 1]],
                ring, maxEntries, maxBytes)
    {
      if text == [] { return; }
      hide ByteLength, Clamps, Bytes, Within, Kept;
      ghost var older := if accumulate && ring != [] then ring[..|ring| - 1] else ring;
      var bounded;
      if accumulate && |ring| > 0 {
        var last := TakeNewest();
        bounded := ClampUtf8(if prepend then text + last else last + text, maxBytes, !prepend);
      } else {
        bounded := ClampUtf8(text, maxBytes, true);
      }
      Add(bounded);
      DropOldest(older, bounded);
    }

    method TakeNewest() returns (last: Text)
      requires ring != [] && totalBytes == Bytes(ring)
      modifies this
      ensures ring == old(ring)[..|old(ring)| - 1] && last == old(ring)[|old(ring)| - 1] && totalBytes == Bytes(ring)
    {
      hide ByteLength;
      last := ring[|ring| - 1];
      assert ring == ring[..|ring| - 1] + [last];
      BytesConcat(ring[..|ring| - 1], [last]);
      ring, totalBytes := ring[..|ring| - 1], totalBytes - ByteLength(last);
    }

    method Add(entry: Text)
      requires totalBytes == Bytes(ring)
      modifies this
      ensures ring == old(ring) + [entry] && totalBytes == Bytes(ring)
    {
      hide ByteLength;
      BytesConcat(ring, [entry]);
      ring, totalBytes := ring + [entry], totalBytes + ByteLength(entry);
    }

    /** Dropping the oldest entries while a limit is exceeded; the newest fits both limits by itself. */
    method DropOldest(ghost older: seq<Text>, ghost newest: Text)
      requires ring == older + [newest] && totalBytes == Bytes(ring)
      requires maxEntries > 0 && 0 < maxBytes && ByteLength(newest) <= maxBytes
      modifies this
      ensures Valid() && ring != [] && ring[|ring| - 1] == newest && Kept(older + [newest], ring, maxEntries, maxBytes)
    {
      hide ByteLength;
      ghost var all := ring;
      while |ring| > maxEntries || totalBytes > maxBytes
        invariant 1 <= |ring| <= |all| && ring == all[|all| - |ring|..]
        invariant totalBytes == Bytes(ring)
        invariant |ring| < |all| ==> !Within(all[|all| - |ring| - 1..], maxEntries, maxBytes)
        decreases |ring|
      {
        assert ring[|ring| - 1] == newest;
        assert |ring| == 1 ==> ring == [newest];
        var removed := ring[0];
        assert ring[1..] == all[|all| - (|ring| - 1)..];
        ring, totalBytes := ring[1..], totalBytes - ByteLength(removed);
      }
    }

    method Peek() returns (newest: Option<Text>)
      ensures newest == if ring == [] then None else Some(ring[|ring| - 1])
    {
      newest := if |ring| > 0 then Some(ring[|ring| - 1]) else None;
    }

    method Rotate()
      requires Valid()
      modifies this
      ensures Valid() && ring == Rotated(old(ring)) && totalBytes == old(totalBytes)
    {
      RotatedBytes(ring);
      if |ring| > 1 {
        var last := ring[|ring| - 1];
        ring := ring[..|ring| - 1];
        ring := [last] + ring;
      }
    }
  }
}
