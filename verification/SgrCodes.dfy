/**
 What each SGR code (ECMA-48, section 8.3.117) and each OSC 8 code does to the state of a row, code by code and
 attribute by attribute, and which texts are codes.
 */
module SgrCodes {
  import opened Fields
  import opened Results
  import opened Sgr

  /** The SGR code with these parameters. */
  function SgrOf(parts: seq<Param>): string {
    CSI + Join(parts, ';') + "m"
  }

  /** The state after the code `ESC [ n m`. */
  function Coded(state: State, n: nat): State {
    Processed(state, SgrOf([ToString(n)]))
  }

  /** An attribute that code `on` switches on and code `off` switches off, as does the reset. */
  predicate Turned(after: bool, before: bool, n: nat, on: nat, off: nat) {
    after == (n == on || (before && n != off && n != 0))
  }

  predicate ForegroundCode(n: nat) {
    30 <= n <= 37 || 90 <= n <= 97
  }

  predicate BackgroundCode(n: nat) {
    40 <= n <= 47 || 100 <= n <= 107
  }

  /** Code 21 switches bold off too. */
  predicate AttributesTurned(after: Attributes, before: Attributes, n: nat) {
    && (if n == 21 then !after.bold else Turned(after.bold, before.bold, n, 1, 22))
    && Turned(after.dim, before.dim, n, 2, 22)
    && Turned(after.italic, before.italic, n, 3, 23) && Turned(after.underline, before.underline, n, 4, 24)
    && Turned(after.blink, before.blink, n, 5, 25) && Turned(after.inverse, before.inverse, n, 7, 27)
    && Turned(after.hidden, before.hidden, n, 8, 28) && Turned(after.strikethrough, before.strikethrough, n, 9, 29)
  }

  /** The whole table: what every code with one number does to every attribute. */
  lemma CodeTable(state: State, n: nat)
    ensures var before, after := state.style, Coded(state, n).style;
      && AttributesTurned(after.on, before.on, n)
      && after.fg == (if ForegroundCode(n) then Some([ToString(n)]) else if n == 0 || n == 39 then None else before.fg)
      && after.bg == (if BackgroundCode(n) then Some([ToString(n)]) else if n == 0 || n == 49 then None else before.bg)
    ensures Coded(state, n).link == state.link
  {
    hide Coded, ToString, AttributesTurned;
    CodedIs(state, n);
    hide AttributeCode;
    StandardTable(state.style, n);
  }

  lemma StandardTable(style: Style, n: nat)
    ensures AttributesTurned(Standard(style, Some(n)).on, style.on, n)
  {
    hide ToString;
  }

  lemma CodedIs(state: State, n: nat)
    ensures Coded(state, n) == state.(style := Standard(state.style, Some(n)))
  {
    hide ToString, ParseOsc8Hyperlink, SgrParams, IsCode, Split, Standard, Join, Apply;
    JoinOne(ToString(n));
    SgrCode(ToString(n));
    PrintedInt(n);
    SplitFirst(ToString(n), "", ';');
    NotEmptyZero(n);
    ApplyOne(state.style, ToString(n));
    ResetStandard(state.style);
  }

  lemma JoinOne(part: Param)
    ensures Join([part], ';') == part
  {}

  lemma NotEmptyZero(n: nat)
    ensures ToString(n) != "" && (ToString(n) == "0" ==> n == 0)
  {
    PrintedInt(n);
    PrintedInt(0);
  }

  lemma ResetStandard(style: Style)
    ensures Standard(style, Some(0)) == PLAIN && ParseInt("0") == Some(0)
  {}

  lemma ApplyOne(style: Style, part: Param)
    ensures Apply(style, [part]) == Standard(style, ParseInt(part))
  {
    hide Standard, ParseInt;
    assert [part][1..] == [];
  }

  /** A colour and then the default code of its kind leaves what the default code alone leaves. */
  lemma ColorUndone(state: State, n: nat)
    ensures ForegroundCode(n) ==> Coded(Coded(state, n), 39) == Coded(state, 39)
    ensures BackgroundCode(n) ==> Coded(Coded(state, n), 49) == Coded(state, 49)
  {
    hide Coded, ToString, AttributeCode;
    CodedIs(state, n);
    CodedIs(Coded(state, n), 39);
    CodedIs(Coded(state, n), 49);
    CodedIs(state, 39);
    CodedIs(state, 49);
  }

  /** `ESC [ m` is a reset. */
  lemma EmptyResets(state: State)
    ensures Processed(state, CSI + "m") == state.(style := PLAIN)
  {
    hide ParseOsc8Hyperlink, SgrParams, IsCode;
    SgrCode("");
    assert CSI + "" + "m" == CSI + "m";
  }

  /** A foreground or background colour of the palette, or by its red, green and blue. */
  predicate IsExtended(color: seq<Param>, kind: nat) {
    && AllDigits(color) && |color| >= 3 && ParseInt(color[0]) == Some(kind)
    && ((|color| == 3 && color[1] == "5") || (|color| == 5 && color[1] == "2"))
  }

  lemma ExtendedSets(state: State, color: seq<Param>)
    ensures IsExtended(color, 38) ==> Processed(state, SgrOf(color)) == state.(style := state.style.(fg := Some(color)))
    ensures IsExtended(color, 48) ==> Processed(state, SgrOf(color)) == state.(style := state.style.(bg := Some(color)))
  {
    hide ParseInt, Apply;
    if IsExtended(color, 38) || IsExtended(color, 48) {
      ProcessedParts(state, color);
      ApplyExtended(state.style, color, []);
      ApplyNothing(WithColor(state.style, color));
      assert color + [] == color;
    }
  }

  /** One code with several parameters, neither absent nor all zero. */
  lemma ProcessedParts(state: State, parts: seq<Param>)
    requires AllDigits(parts) && |parts| > 0 && parts != [""]
    ensures Processed(state, SgrOf(parts)) == state.(style := Apply(state.style, parts))
  {
    hide ParseOsc8Hyperlink, SgrParams, IsCode, Split, Apply, Join, Standard;
    JoinChars(parts);
    SplitJoinDigits(parts);
    SgrCode(Join(parts, ';'));
    EmptySplit();
    if Join(parts, ';') == "0" {
      ResetStandard(state.style);
      ApplyOne(state.style, "0");
    }
  }

  lemma EmptySplit()
    ensures Split("", ';') == [""] && Split("0", ';') == ["0"]
  {
    SplitFirst("0", "", ';');
  }

  lemma SplitJoinDigits(parts: seq<Param>)
    requires AllDigits(parts) && parts != []
    ensures Split(Join(parts, ';'), ';') == parts
  {
    SplitJoin(parts, ';');
  }

  /**
   A list of parameters acts as its front and then its rest, each in a code of its own; the front is one number, or an
   extended colour.
   */
  lemma OneByOne(state: State, first: seq<Param>, rest: seq<Param>)
    requires AllDigits(first) && AllDigits(rest) && rest != [] && rest != [""]
    requires IsExtended(first, 38) || IsExtended(first, 48)
      || (|first| == 1 && first[0] != "" && ParseInt(first[0]) != Some(38) && ParseInt(first[0]) != Some(48))
    ensures Processed(state, SgrOf(first + rest)) == Processed(Processed(state, SgrOf(first)), SgrOf(rest))
  {
    hide ParseInt, Processed, SgrOf, Apply, Standard, WithColor;
    ProcessedParts(state, first + rest);
    ProcessedParts(state, first);
    ProcessedParts(Processed(state, SgrOf(first)), rest);
    if |first| == 1 {
      ApplyOne(state.style, first[0]);
      ApplyFirst(state.style, first[0], rest);
      assert first == [first[0]];
    } else {
      ApplyExtended(state.style, first, rest);
      ApplyExtended(state.style, first, []);
      ApplyNothing(WithColor(state.style, first));
      assert first + [] == first;
    }
  }

  lemma ApplyFirst(style: Style, part: Param, rest: seq<Param>)
    requires ParseInt(part) != Some(38) && ParseInt(part) != Some(48)
    ensures Apply(style, [part] + rest) == Apply(Standard(style, ParseInt(part)), rest)
  {
    hide Standard, ParseInt;
    assert ([part] + rest)[1..] == rest;
  }

  /** An absent parameter in a longer list does nothing. */
  lemma AbsentDoesNothing(state: State, rest: seq<Param>)
    requires AllDigits(rest) && rest != [] && rest != [""]
    ensures Processed(state, SgrOf([""] + rest)) == Processed(state, SgrOf(rest))
  {
    hide Processed, SgrOf, Apply;
    ProcessedParts(state, [""] + rest);
    ProcessedParts(state, rest);
    ApplyFirst(state.style, "", rest);
  }

  // ---- Links ----

  lemma SeparatorFound(params: string, url: string)
    requires ';' !in params
    ensures IndexOfChar(params + ";" + url, ';') == |params|
  {
    var body := params + ";" + url;
    var i := IndexOfChar(body, ';');
    assert body[|params|] == ';';
    assert forall k | 0 <= k < |params| :: body[k] == params[k];
    assert forall k | 0 <= k < i :: body[..i][k] == body[k];
  }

  /** An OSC 8 code opens the link it names, or closes the link if it names none; the style stays as it is. */
  lemma LinkCode(state: State, link: Hyperlink)
    requires ';' !in link.params
    ensures Processed(state, FormatOsc8Hyperlink(link)) == state.(link := if link.url == "" then None else Some(link))
  {
    hide IndexOfChar, SgrParams;
    var code := FormatOsc8Hyperlink(link);
    var body := link.params + ";" + link.url;
    SeparatorFound(link.params, link.url);
    assert code == OSC8 + body + Ending(link.terminator);
    assert code[|OSC8|..|OSC8| + |body|] == body;
    assert body[..|link.params|] == link.params && body[|link.params| + 1..] == link.url;
    assert code[|code| - 1] == Ending(link.terminator)[|Ending(link.terminator)| - 1];
  }

  /** Nothing but an OSC 8 code, or parameters between `ESC [` and `m`, changes the state. */
  lemma OtherwiseKept(state: State, code: string)
    requires Processed(state, code) != state
    ensures OSC8 <= code || exists params :: ParamChars(params) && code == CSI + params + "m"
  {
    hide ApplyParams, ParseBody;
  }

  // ---- Which texts are codes ----

  predicate Final(c: char) {
    0x40 <= c as int <= 0x7E
  }

  /** BEL, or ST, ends at `n`. */
  predicate StringEnds(s: string, n: nat) {
    2 < n <= |s| && (s[n - 1] == BEL || (n > 3 && s[n - 2] == ESC && s[n - 1] == '\\'))
  }

  /** `n` is where the escape sequence at the start of `s` ends. */
  predicate CodeEndsAt(s: string, n: nat) {
    2 < n <= |s| && s[0] == ESC
    && if s[1] == '[' then Final(s[n - 1]) else (s[1] == ']' || s[1] == '_') && StringEnds(s, n)
  }

  /** A code is found exactly at the start of a text, up to its first end. */
  lemma CodeIsFirstEnd(s: string, n: nat)
    ensures ExtractAnsiCode(s) == Some(n) <==> CodeEndsAt(s, n) && forall k | 0 <= k < n :: !CodeEndsAt(s, k)
  {
    if |s| >= 2 && s[0] == ESC {
      if s[1] == '[' {
        FirstFinal(s, 2);
        var end := FindFinal(s, 2);
        forall k | 2 < k <= |s| && (end.None? || k < end.value)
          ensures !CodeEndsAt(s, k)
        {
          assert !Final(s[k - 1]);
        }
        assert end.Some? ==> CodeEndsAt(s, end.value);
      } else if s[1] == ']' || s[1] == '_' {
        FirstTerminator(s, 2);
        var end := FindTerminator(s, 2);
        assert end.Some? ==> CodeEndsAt(s, end.value);
      }
    }
  }

  lemma {:induction false} FirstFinal(s: string, j: nat)
    ensures var end := FindFinal(s, j);
      if end.Some? then Final(s[end.value - 1]) && forall k | j <= k < end.value - 1 :: !Final(s[k])
      else forall k | j <= k < |s| :: !Final(s[k])
    decreases |s| - j
  {
    if j < |s| && !('@' <= s[j] <= '~') {
      FirstFinal(s, j + 1);
    }
  }

  lemma {:induction false} FirstTerminator(s: string, j: nat)
    requires j >= 2 && (j == 2 || j >= |s| || !(s[j - 1] == ESC && s[j] == '\\'))
    ensures var end := FindTerminator(s, j);
      if end.Some? then StringEnds(s, end.value) && forall k | j < k < end.value :: !StringEnds(s, k)
      else forall k | j < k <= |s| :: !StringEnds(s, k)
    decreases |s| - j
  {
    if j < |s| && s[j] != BEL && !(s[j] == ESC && j + 1 < |s| && s[j + 1] == '\\') {
      FirstTerminator(s, j + 1);
    }
  }

  // ---- Codes in a text ----

  /** Text without an escape leaves the state as it is. */
  lemma {:induction false} PlainText(state: State, text: string)
    requires ESC !in text
    ensures Updated(state, text) == state
    decreases |text|
  {
    hide Processed;
    if text != "" {
      PlainText(state, text[1..]);
    }
  }

  lemma {:induction false} AfterPlain(state: State, plain: string, text: string)
    requires ESC !in plain
    ensures Updated(state, plain + text) == Updated(state, text)
    decreases |plain|
  {
    hide Processed;
    if plain == "" {
      assert plain + text == text;
    } else {
      assert (plain + text)[1..] == plain[1..] + text;
      AfterPlain(state, plain[1..], text);
    }
  }
}
