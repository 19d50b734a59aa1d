/**
 Replacing one provider's section of a generated catalog. Section and rest are a lens: what was put in is what is found,
 everything else stays, and putting the old section back restores the old catalog.
 */
module Catalog {
  import opened Results
  import opened Strings

  const END_MARKER := "\n\t},\n"
  const NEXT_PROVIDER := "\n\t\""

  /** A provider name as a JSON string: quoted, with no raw line break or tab inside. */
  predicate IsKey(key: string) {
    |key| >= 2 && key[0] == '"' && key[|key| - 1] == '"' && '\n' !in key && '\t' !in key
  }

  function Marker(key: string): string {
    "\n\t" + key + ": {\n"
  }

  /** The end of the section whose header ends at `from`: its terminator must come before the next header. */
  function SectionEnd(catalog: string, from: nat): (end: Option<nat>)
    ensures end.Some? ==> from + |END_MARKER| <= end.value <= |catalog|
  {
    var end := IndexFrom(catalog, END_MARKER, from);
    var next := IndexFrom(catalog, NEXT_PROVIDER, from);
    if end < 0 || (next >= 0 && next < end) then None else Some(end + |END_MARKER|)
  }

  /** The section of the provider whose encoded name is `key`: from its marker to the end of its terminator. */
  function ProviderSection(catalog: string, key: string): (section: Result<(nat, nat)>)
    ensures section.Ok? ==> section.value.0 <= section.value.1 <= |catalog|
  {
    var marker := Marker(key);
    var start := IndexOf(catalog, marker);
    if start < 0 then Err("Missing catalog provider")
    else if IndexFrom(catalog, marker, start + |marker|) >= 0 then Err("Duplicate catalog provider")
    else
      var end := SectionEnd(catalog, start + |marker|);
      if end.None? then Err("Unterminated catalog provider") else Ok((start, end.value))
  }

  function ReplaceModelCatalogProvider(current: string, generated: string, key: string): Result<string> {
    var c := ProviderSection(current, key);
    if c.Err? then Err(c.message)
    else
      var g := ProviderSection(generated, key);
      if g.Err? then Err(g.message)
      else Ok(current[..c.value.0] + generated[g.value.0..g.value.1] + current[c.value.1..])
  }

  // ---- What a section is ----

  predicate NoneIn(s: string, pattern: string, from: nat, to: nat) {
    forall i | from <= i < to :: !OccursAt(s, pattern, i)
  }

  /** The only section of the provider: its one marker, the first terminator after it, and no other header between. */
  ghost predicate IsSection(s: string, key: string, start: nat, end: nat) {
    var m := |Marker(key)|;
    && start + m + |END_MARKER| <= end <= |s|
    && OccursAt(s, Marker(key), start)
    && NoneIn(s, Marker(key), 0, start) && NoneIn(s, Marker(key), start + m, |s|)
    && OccursAt(s, END_MARKER, end - |END_MARKER|)
    && NoneIn(s, END_MARKER, start + m, end - |END_MARKER|)
    && NoneIn(s, NEXT_PROVIDER, start + m, end - |END_MARKER|)
  }

  lemma SectionFound(s: string, key: string, start: nat, end: nat)
    ensures ProviderSection(s, key) == Ok((start, end)) <==> IsSection(s, key, start, end)
  {
    hide Marker, END_MARKER, NEXT_PROVIDER;
    var m := Marker(key);
    MarkerLength(key);
    EndApart(s, end - |END_MARKER|);
    if IsSection(s, key, start, end) {
      assert !(IndexOf(s, m) < start);
    }
  }

  lemma MarkerLength(key: string)
    ensures |Marker(key)| == |key| + 6 && |END_MARKER| == 5 && |NEXT_PROVIDER| == 3
  {}

  /** A terminator is no header. */
  lemma EndApart(s: string, i: int)
    ensures !(OccursAt(s, END_MARKER, i) && OccursAt(s, NEXT_PROVIDER, i))
  {
    assert END_MARKER[2] != NEXT_PROVIDER[2];
    if OccursAt(s, END_MARKER, i) && OccursAt(s, NEXT_PROVIDER, i) {
      OccursChar(s, END_MARKER, i, 2);
      OccursChar(s, NEXT_PROVIDER, i, 2);
    }
  }

  lemma MarkerShape(key: string)
    requires IsKey(key)
    ensures forall k | 0 <= k < |Marker(key)| :: Marker(key)[k] == '\n' <==> k == 0 || k == |Marker(key)| - 1
  {
    var m := Marker(key);
    assert m[|m| - 1] == '\n';
    forall k | 0 < k < |m| - 1
      ensures m[k] != '\n'
    {
      if 2 <= k < 2 + |key| {
        assert m[k] == key[k - 2];
        assert key[k - 2] in key;
      }
    }
  }

  /** The same text around two positions has the same occurrences there. */
  lemma OccursSame(s: string, i: nat, t: string, j: nat, pattern: string)
    requires OccursAt(s, pattern, i) && j + |pattern| <= |t|
    requires t[j..j + |pattern|] == s[i..i + |pattern|]
    ensures OccursAt(t, pattern, j)
  {}

  /** Equal stretches have equal parts. */
  lemma Part(s: string, a: nat, b: nat, t: string, c: nat, d: nat, k: nat, n: nat)
    requires a <= b <= |s| && c <= d <= |t| && s[a..b] == t[c..d] && k + n <= b - a
    ensures s[a + k..a + k + n] == t[c + k..c + k + n]
  {
    SliceOfSlice(s, a, b, k, n);
    SliceOfSlice(t, c, d, k, n);
  }

  lemma SliceOfSlice(s: string, a: nat, b: nat, k: nat, n: nat)
    requires a <= b <= |s| && k + n <= b - a
    ensures s[a..b][k..k + n] == s[a + k..a + k + n]
  {
    var x, y := s[a..b][k..k + n], s[a + k..a + k + n];
    assert |x| == |y| == n;
    assert forall i | 0 <= i < n :: x[i] == y[i];
  }

  lemma OccursChar(s: string, pattern: string, i: nat, k: nat)
    requires OccursAt(s, pattern, i) && k < |pattern|
    ensures s[i + k] == pattern[k]
  {
    assert s[i..i + |pattern|][k] == s[i + k];
  }

  // ---- The section after a replacement ----

  ghost predicate Replaced(c: string, cs: nat, ce: nat, g: string, gs: nat, ge: nat, key: string, r: string) {
    && IsSection(c, key, cs, ce) && IsSection(g, key, gs, ge)
    && r == c[..cs] + g[gs..ge] + c[ce..]
  }

  lemma ReplacedAt(c: string, cs: nat, ce: nat, g: string, gs: nat, ge: nat, key: string, r: string)
    requires Replaced(c, cs, ce, g, gs, ge, key, r)
    ensures cs <= ce <= |c| && gs <= ge <= |g| && |r| == |c| - (ce - cs) + (ge - gs)
    ensures cs < ce && gs < ge
    ensures r[0..cs] == c[0..cs] && r[cs..cs + (ge - gs)] == g[gs..ge]
    ensures r[cs + (ge - gs)..|r|] == c[ce..|c|]
    ensures r[0..cs + 1] == c[0..cs + 1]
    ensures r[cs + (ge - gs) - 1..|r|] == c[ce - 1..|c|]
  {
    hide Marker, END_MARKER, NEXT_PROVIDER, OccursAt, NoneIn;
    MarkerLength(key);
    SectionEnds(c, key, cs, ce);
    SectionEnds(g, key, gs, ge);
  }

  /** A section begins and ends with a line break. */
  lemma SectionEnds(s: string, key: string, start: nat, end: nat)
    requires IsSection(s, key, start, end)
    ensures s[start] == '\n' && s[end - 1] == '\n'
  {
    OccursChar(s, Marker(key), start, 0);
    OccursChar(s, END_MARKER, end - |END_MARKER|, |END_MARKER| - 1);
  }

  /** No marker ends inside the new section having begun before it: it would have been in the old catalog. */
  lemma NoneBefore(c: string, cs: nat, ce: nat, g: string, gs: nat, ge: nat, key: string, r: string, i: nat)
    requires Replaced(c, cs, ce, g, gs, ge, key, r) && IsKey(key) && i < cs
    ensures !OccursAt(r, Marker(key), i)
  {
    hide Marker, END_MARKER, NEXT_PROVIDER, OccursAt;
    var m := Marker(key);
    MarkerLength(key);
    ReplacedAt(c, cs, ce, g, gs, ge, key, r);
    SectionEnds(c, key, cs, ce);
    SectionEnds(g, key, gs, ge);
    MarkerShape(key);
    if OccursAt(r, m, i) {
      OccursIn(r, m, i);
      if cs < i + |m| {
        assert r[0..cs + 1][cs] == r[cs] == c[0..cs + 1][cs] == c[cs];
        OccursChar(r, m, i, cs - i);
      }
      Part(r, 0, cs + 1, c, 0, cs + 1, i, |m|);
      OccursSame(r, i, c, i, m);
    }
  }

  lemma OccursIn(s: string, pattern: string, i: nat)
    requires OccursAt(s, pattern, i)
    ensures i + |pattern| <= |s|
  {}

  /** Nor does one begin inside the new section; one that ends beyond it would have been in the old catalog. */
  lemma NoneInside(c: string, cs: nat, ce: nat, g: string, gs: nat, ge: nat, key: string, r: string, i: nat)
    requires Replaced(c, cs, ce, g, gs, ge, key, r) && cs + |Marker(key)| <= i && i + |Marker(key)| <= cs + (ge - gs)
    ensures !OccursAt(r, Marker(key), i)
  {
    hide Marker, END_MARKER, NEXT_PROVIDER, OccursAt, NoneIn;
    var m := Marker(key);
    ReplacedAt(c, cs, ce, g, gs, ge, key, r);
    if OccursAt(r, m, i) {
      MarkerLength(key);
      Part(r, cs, cs + (ge - gs), g, gs, ge, i - cs, |m|);
      OccursSame(r, i, g, gs + (i - cs), m);
      NoneInAt(g, m, gs + |m|, |g|, gs + (i - cs));
    }
  }

  lemma NoneInAt(s: string, pattern: string, from: nat, to: nat, i: nat)
    requires NoneIn(s, pattern, from, to) && from <= i < to
    ensures !OccursAt(s, pattern, i)
  {}

  lemma NoneBeyond(c: string, cs: nat, ce: nat, g: string, gs: nat, ge: nat, key: string, r: string, i: nat)
    requires Replaced(c, cs, ce, g, gs, ge, key, r) && IsKey(key) && cs + |Marker(key)| <= i
    requires cs + (ge - gs) < i + |Marker(key)|
    ensures !OccursAt(r, Marker(key), i)
  {
    hide Marker, END_MARKER, NEXT_PROVIDER, OccursAt, NoneIn, IsKey;
    var m := Marker(key);
    var b := cs + (ge - gs);
    ReplacedAt(c, cs, ce, g, gs, ge, key, r);
    SectionEnds(g, key, gs, ge);
    SectionEnds(c, key, cs, ce);
    MarkerShape(key);
    if OccursAt(r, m, i) {
      MarkerLength(key);
      OccursIn(r, m, i);
      if i < b - 1 {
        assert r[b - 1..|r|][0] == c[ce - 1..|c|][0];
        OccursChar(r, m, i, b - 1 - i);
      }
      Part(r, b - 1, |r|, c, ce - 1, |c|, i - (b - 1), |m|);
      OccursSame(r, i, c, ce - 1 + (i - (b - 1)), m);
      NoneInAt(c, m, cs + |m|, |c|, ce - 1 + (i - (b - 1)));
    }
  }

  /** What the new section holds up to its terminator is found there again, and nothing else is. */
  lemma InsideSame(c: string, cs: nat, ce: nat, g: string, gs: nat, ge: nat, key: string,
                   r: string, pattern: string, k: nat)
    requires Replaced(c, cs, ce, g, gs, ge, key, r) && k + |pattern| <= ge - gs
    ensures OccursAt(r, pattern, cs + k) <==> OccursAt(g, pattern, gs + k)
  {
    hide Marker, END_MARKER, NEXT_PROVIDER, OccursAt;
    ReplacedAt(c, cs, ce, g, gs, ge, key, r);
    Part(r, cs, cs + (ge - gs), g, gs, ge, k, |pattern|);
    if OccursAt(r, pattern, cs + k) {
      OccursSame(r, cs + k, g, gs + k, pattern);
    }
    if OccursAt(g, pattern, gs + k) {
      OccursSame(g, gs + k, r, cs + k, pattern);
    }
  }

  lemma NewSection(c: string, cs: nat, ce: nat, g: string, gs: nat, ge: nat, key: string, r: string)
    requires Replaced(c, cs, ce, g, gs, ge, key, r) && IsKey(key)
    ensures IsSection(r, key, cs, cs + (ge - gs))
  {
    hide Marker, END_MARKER, NEXT_PROVIDER, OccursAt, IsKey;
    var m, n := |Marker(key)|, ge - gs;
    MarkerLength(key);
    ReplacedAt(c, cs, ce, g, gs, ge, key, r);
    InsideSame(c, cs, ce, g, gs, ge, key, r, Marker(key), 0);
    forall i: nat | i < cs
      ensures !OccursAt(r, Marker(key), i)
    {
      NoneBefore(c, cs, ce, g, gs, ge, key, r, i);
    }
    forall i: nat | cs + m <= i
      ensures !OccursAt(r, Marker(key), i)
    {
      if i + m <= cs + n {
        NoneInside(c, cs, ce, g, gs, ge, key, r, i);
      } else {
        NoneBeyond(c, cs, ce, g, gs, ge, key, r, i);
      }
    }
    forall i: nat | cs + m <= i <= cs + n - 5
      ensures OccursAt(r, END_MARKER, i) <==> OccursAt(g, END_MARKER, gs + (i - cs))
      ensures OccursAt(r, NEXT_PROVIDER, i) <==> OccursAt(g, NEXT_PROVIDER, gs + (i - cs))
    {
      InsideSame(c, cs, ce, g, gs, ge, key, r, END_MARKER, i - cs);
      InsideSame(c, cs, ce, g, gs, ge, key, r, NEXT_PROVIDER, i - cs);
    }
  }

  // ---- The laws ----

  /** The text of the provider's section. */
  function Section(catalog: string, key: string): Result<string> {
    var s := ProviderSection(catalog, key);
    if s.Err? then Err(s.message)
    else
      SectionFound(catalog, key, s.value.0, s.value.1);
      Ok(catalog[s.value.0..s.value.1])
  }

  lemma IsReplaced(c: string, cs: nat, ce: nat, g: string, gs: nat, ge: nat, key: string)
    requires IsSection(c, key, cs, ce) && IsSection(g, key, gs, ge)
    ensures Replaced(c, cs, ce, g, gs, ge, key, c[..cs] + g[gs..ge] + c[ce..])
  {}

  /** What was put in is found, and the text before and after the section is what it was. */
  lemma PutGet(current: string, generated: string, key: string)
    requires IsKey(key)
    ensures var r := ReplaceModelCatalogProvider(current, generated, key);
      && (r.Ok? <==> Section(current, key).Ok? && Section(generated, key).Ok?)
      && (r.Ok? ==>
            var (cs, ce) := ProviderSection(current, key).value;
            var g := Section(generated, key).value;
            && ProviderSection(r.value, key) == Ok((cs, cs + |g|)) && Section(r.value, key) == Ok(g)
            && cs <= ce <= |current| && cs + |g| <= |r.value|
            && r.value[..cs] == current[..cs] && r.value[cs + |g|..] == current[ce..])
  {
    hide IsKey, IsSection, ProviderSection, Replaced;
    var r := ReplaceModelCatalogProvider(current, generated, key);
    if r.Ok? {
      var (cs, ce) := ProviderSection(current, key).value;
      var (gs, ge) := ProviderSection(generated, key).value;
      SectionFound(current, key, cs, ce);
      SectionFound(generated, key, gs, ge);
      IsReplaced(current, cs, ce, generated, gs, ge, key);
      ReplacedAt(current, cs, ce, generated, gs, ge, key, r.value);
      NewSection(current, cs, ce, generated, gs, ge, key, r.value);
      SectionFound(r.value, key, cs, cs + (ge - gs));
    }
  }

  /** A later replacement hides an earlier one of the same provider, so replacing again changes nothing. */
  lemma PutPut(current: string, first: string, second: string, key: string)
    requires IsKey(key) && ReplaceModelCatalogProvider(current, first, key).Ok?
    ensures var r := ReplaceModelCatalogProvider(current, first, key).value;
      && ReplaceModelCatalogProvider(r, second, key) == ReplaceModelCatalogProvider(current, second, key)
      && ReplaceModelCatalogProvider(r, first, key) == Ok(r)
  {
    hide IsKey, IsSection, ProviderSection;
    PutGet(current, first, key);
  }

  /** Putting the old section back restores the catalog. */
  lemma GetPut(current: string, generated: string, key: string)
    requires IsKey(key) && ReplaceModelCatalogProvider(current, generated, key).Ok?
    ensures ReplaceModelCatalogProvider(ReplaceModelCatalogProvider(current, generated, key).value, current, key)
          == Ok(current)
  {
    hide IsKey, IsSection, ProviderSection;
    PutPut(current, generated, current, key);
    var (cs, ce) := ProviderSection(current, key).value;
    assert current[..cs] + current[cs..ce] + current[ce..] == current;
  }
}
