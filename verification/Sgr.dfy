/**
 The style state of a terminal row: what SGR codes (ECMA-48, section 8.3.117) and OSC 8 hyperlinks make of it, and a
 tracker that can print codes to set it up again. Whatever text has been read, printing the state and reading that from
 a clear start gives the same state.
 */
module Sgr {
  import opened Fields
  import opened Results

  // ---- Escape sequences in text ----

  function FindFinal(s: string, j: nat): (end: Option<nat>)
    ensures end.Some? ==> j < end.value <= |s|
    decreases |s| - j
  {
    if j >= |s| then None else if '@' <= s[j] <= '~' then Some(j + 1) else FindFinal(s, j + 1)
  }

  function FindTerminator(s: string, j: nat): (end: Option<nat>)
    ensures end.Some? ==> j < end.value <= |s|
    decreases |s| - j
  {
    if j >= |s| then None
    else if s[j] == BEL then Some(j + 1)
    else if s[j] == ESC && j + 1 < |s| && s[j + 1] == '\\' then Some(j + 2)
    else FindTerminator(s, j + 1)
  }

  /** The length of the escape sequence at the start of `s`, if there is a complete one. */
  function ExtractAnsiCode(s: string): (length: Option<nat>)
    ensures length.Some? ==> 2 < length.value <= |s|
  {
    if |s| < 2 || s[0] != ESC then None
    else if s[1] == '[' then FindFinal(s, 2)
    else if s[1] == ']' || s[1] == '_' then FindTerminator(s, 2)
    else None
  }

  /** A complete escape sequence and nothing else. */
  predicate IsCode(code: string) {
    ExtractAnsiCode(code) == Some(|code|)
  }

  lemma {:induction false} FinalPrefix(s: string, j: nat, n: nat)
    requires n <= |s| && (FindFinal(s, j) == Some(n) || (j <= n && FindFinal(s[..n], j) == Some(n)))
    ensures FindFinal(s, j) == Some(n) && FindFinal(s[..n], j) == Some(n)
    decreases |s| - j
  {
    if j < |s| && !('@' <= s[j] <= '~') {
      FinalPrefix(s, j + 1, n);
    }
  }

  lemma {:induction false} TerminatorPrefix(s: string, j: nat, n: nat)
    requires n <= |s| && (FindTerminator(s, j) == Some(n) || (j <= n && FindTerminator(s[..n], j) == Some(n)))
    ensures FindTerminator(s, j) == Some(n) && FindTerminator(s[..n], j) == Some(n)
    decreases |s| - j
  {
    if j < |s| && s[j] != BEL && !(s[j] == ESC && j + 1 < n && s[j + 1] == '\\') {
      TerminatorPrefix(s, j + 1, n);
    }
  }

  /** What is found at the start of a text is a code, and a code is found again before any text. */
  lemma CodeFound(s: string, n: nat)
    requires n <= |s|
    ensures ExtractAnsiCode(s) == Some(n) <==> IsCode(s[..n])
  {
    if ExtractAnsiCode(s) == Some(n) || IsCode(s[..n]) {
      if s[1] == '[' {
        FinalPrefix(s, 2, n);
      } else {
        TerminatorPrefix(s, 2, n);
      }
    }
  }

  // ---- Hyperlinks ----

  datatype Terminator = Bel | St

  datatype Hyperlink = Hyperlink(params: string, url: string, terminator: Terminator)

  /** `NoLink` is not an OSC 8 code at all, `Closed` one without a target. */
  datatype Parsed = NoLink | Closed | Opened(link: Hyperlink)

  const OSC8: string := [ESC] + "]8;"

  function Ending(t: Terminator): string {
    if t == Bel then [BEL] else [ESC, '\\']
  }

  function IndexOfChar(s: string, c: char): (i: nat)
    ensures i <= |s| && c !in s[..i] && (i < |s| ==> s[i] == c)
  {
    if s == [] || s[0] == c then 0
    else
      var i := 1 + IndexOfChar(s[1..], c);
      assert s[..i] == [s[0]] + s[1..][..i - 1];
      i
  }

  function ParseBody(body: string, terminator: Terminator): Parsed {
    var separator := IndexOfChar(body, ';');
    if separator == |body| then NoLink
    else if separator + 1 == |body| then Closed
    else Opened(Hyperlink(body[..separator], body[separator + 1..], terminator))
  }

  function ParseOsc8Hyperlink(code: string): Parsed {
    if !(OSC8 <= code) then NoLink
    else
      var terminator := if code[|code| - 1] == BEL then Bel else St;
      var end := |code| - |Ending(terminator)|;
      ParseBody(if |OSC8| < end then code[|OSC8|..end] else "", terminator)
  }

  function FormatOsc8Hyperlink(link: Hyperlink): string {
    OSC8 + link.params + ";" + link.url + Ending(link.terminator)
  }

  function FormatOsc8Close(terminator: Terminator): string {
    OSC8 + ";" + Ending(terminator)
  }

  /** A code ends with the terminator that parsing takes it to have. */
  lemma {:induction false} TerminatorFound(s: string, j: nat)
    requires j < |s| && FindTerminator(s, j) == Some(|s|)
    ensures s[|s| - 1] == BEL || (|s| >= j + 2 && s[|s| - 2] == ESC && s[|s| - 1] == '\\')
    decreases |s| - j
  {
    if s[j] != BEL && !(s[j] == ESC && j + 1 < |s| && s[j + 1] == '\\') {
      TerminatorFound(s, j + 1);
    }
  }

  lemma BodyReprinted(body: string, terminator: Terminator)
    requires ParseBody(body, terminator).Opened?
    ensures var link := ParseBody(body, terminator).link;
      link.terminator == terminator && link.params + ";" + link.url == body
  {
    var separator := IndexOfChar(body, ';');
    assert body == body[..separator] + [body[separator]] + body[separator + 1..];
  }

  lemma Cut(s: string, a: string, b: string)
    requires a <= s && |a| + |b| <= |s| && s[|s| - |b|..] == b
    ensures s == a + s[|a|..|s| - |b|] + b
  {}

  /** Printing a link gives back the code it was read from. */
  lemma LinkReprinted(code: string)
    requires IsCode(code) && ParseOsc8Hyperlink(code).Opened?
    ensures FormatOsc8Hyperlink(ParseOsc8Hyperlink(code).link) == code
  {
    hide ParseBody;
    CodeEnds(code);
    var terminator := if code[|code| - 1] == BEL then Bel else St;
    var end := |code| - |Ending(terminator)|;
    if |OSC8| < end {
      Cut(code, OSC8, Ending(terminator));
      BodyReprinted(code[|OSC8|..end], terminator);
    } else {
      EmptyBody(terminator);
    }
  }

  lemma EmptyBody(terminator: Terminator)
    ensures ParseBody("", terminator) == NoLink
  {}

  lemma CodeEnds(code: string)
    requires IsCode(code) && OSC8 <= code
    ensures var terminator := if code[|code| - 1] == BEL then Bel else St;
      |Ending(terminator)| <= |code| && code[|code| - |Ending(terminator)|..] == Ending(terminator)
  {
    assert code[1] == OSC8[1];
    TerminatorFound(code, 2);
  }

  // ---- Numbers and parameters ----

  /** `Number.parseInt` of digits: nothing for an empty parameter. */
  function ParseInt(digits: string): Option<nat> {
    if IsNumber(digits) then Some(ToNat(digits)) else None
  }

  lemma PrintedInt(n: nat)
    ensures ParseInt(ToString(n)) == Some(n)
  {
    PrintedNumber(n);
  }

  /** One parameter of an SGR code: digits, perhaps none. */
  type Param = string

  predicate ParamChars(s: string) {
    forall i | 0 <= i < |s| :: IsDigit(s[i]) || s[i] == ';'
  }

  predicate AllDigits(parts: seq<Param>) {
    forall i | 0 <= i < |parts| :: Digits(parts[i])
  }

  lemma {:induction false} SplitDigits(s: string)
    requires ParamChars(s)
    ensures AllDigits(Split(s, ';'))
  {
    if s != "" {
      SplitDigits(s[1..]);
    }
  }

  lemma {:induction false} JoinChars(parts: seq<Param>)
    requires AllDigits(parts)
    ensures ParamChars(Join(parts, ';'))
  {
    if |parts| > 1 {
      JoinChars(parts[1..]);
    }
  }

  // ---- Styles ----

  datatype Attributes = Attributes(bold: bool, dim: bool, italic: bool, underline: bool, blink: bool, inverse: bool,
                                   hidden: bool, strikethrough: bool)

  /** A colour is kept as the parameters that set it. */
  datatype Style = Style(on: Attributes, fg: Option<seq<Param>>, bg: Option<seq<Param>>)

  const NO_ATTRIBUTES := Attributes(false, false, false, false, false, false, false, false)

  const PLAIN := Style(NO_ATTRIBUTES, None, None)

  datatype State = State(style: Style, link: Option<Hyperlink>)

  const CLEAR := State(PLAIN, None)

  function Switched(value: bool, on: bool, off: bool): bool {
    if on then true else if off then false else value
  }

  /** Each attribute has its codes to switch it on and off. */
  function AttributeCode(on: Attributes, n: nat): Attributes {
    Attributes(Switched(on.bold, n == 1, n == 21 || n == 22), Switched(on.dim, n == 2, n == 22),
               Switched(on.italic, n == 3, n == 23), Switched(on.underline, n == 4, n == 24),
               Switched(on.blink, n == 5, n == 25), Switched(on.inverse, n == 7, n == 27),
               Switched(on.hidden, n == 8, n == 28), Switched(on.strikethrough, n == 9, n == 29))
  }

  /** One parameter that stands for itself. */
  function Standard(style: Style, code: Option<nat>): Style {
    match code
    case None => style
    case Some(n) =>
      if n == 0 then PLAIN
      else if n < 30 then style.(on := AttributeCode(style.on, n))
      else if n == 39 then style.(fg := None)
      else if n == 49 then style.(bg := None)
      else if StandardFg(n) then style.(fg := Some([ToString(n)]))
      else if StandardBg(n) then style.(bg := Some([ToString(n)]))
      else style
  }

  predicate StandardFg(n: nat) {
    30 <= n <= 37 || 90 <= n <= 97
  }

  predicate StandardBg(n: nat) {
    40 <= n <= 47 || 100 <= n <= 107
  }

  /** How many parameters an extended colour at the start takes up; 0 if there is none. */
  function ColorLength(parts: seq<Param>): (n: nat)
    ensures n <= |parts| && (n == 0 || n == 3 || n == 5)
  {
    if parts == [] || !(ParseInt(parts[0]) == Some(38) || ParseInt(parts[0]) == Some(48)) || |parts| < 3 then 0
    else if parts[1] == "5" then 3
    else if parts[1] == "2" && |parts| >= 5 then 5
    else 0
  }

  function WithColor(style: Style, color: seq<Param>): Style
    requires color != []
  {
    if ParseInt(color[0]) == Some(38) then style.(fg := Some(color)) else style.(bg := Some(color))
  }

  function Apply(style: Style, parts: seq<Param>): Style
    decreases |parts|
  {
    if parts == [] then style
    else
      var n := ColorLength(parts);
      if n > 0 then Apply(WithColor(style, parts[..n]), parts[n..])
      else Apply(Standard(style, ParseInt(parts[0])), parts[1..])
  }

  const CSI: string := [ESC] + "["

  /** The parameters of an SGR code. */
  function SgrParams(code: string): (params: Option<string>)
    ensures params.Some? ==> ParamChars(params.value) && code == CSI + params.value + "m"
  {
    if |code| >= 3 && CSI <= code && code[|code| - 1] == 'm' && ParamChars(code[2..|code| - 1])
    then Some(code[2..|code| - 1]) else None
  }

  function ApplyParams(style: Style, params: string): Style {
    if params == "" || params == "0" then PLAIN else Apply(style, Split(params, ';'))
  }

  /** What an escape sequence makes of the state. */
  function Processed(state: State, code: string): State {
    var link := ParseOsc8Hyperlink(code);
    if link.Closed? then state.(link := None)
    else if link.Opened? then state.(link := Some(link.link))
    else
      var params := SgrParams(code);
      if params.None? then state else state.(style := ApplyParams(state.style, params.value))
  }

  /** What a text makes of the state. */
  function Updated(state: State, text: string): State
    decreases |text|
  {
    if text == "" then state
    else
      var length := ExtractAnsiCode(text);
      if length.Some? then Updated(Processed(state, text[..length.value]), text[length.value..])
      else Updated(state, text[1..])
  }

  // ---- Printing the state ----

  function Flag(on: bool, param: Param): seq<Param> {
    if on then [param] else []
  }

  /** The attributes that are on, followed by `rest`. */
  function Flags(on: Attributes, rest: seq<Param>): seq<Param> {
    Flag(on.bold, "1") + (Flag(on.dim, "2") + (Flag(on.italic, "3") + (Flag(on.underline, "4") + LaterFlags(on, rest))))
  }

  function LaterFlags(on: Attributes, rest: seq<Param>): seq<Param> {
    Flag(on.blink, "5") + (Flag(on.inverse, "7") + (Flag(on.hidden, "8") + (Flag(on.strikethrough, "9") + rest)))
  }

  function Color(color: Option<seq<Param>>): seq<Param> {
    if color.Some? then color.value else []
  }

  function ActiveParams(style: Style): seq<Param> {
    Flags(style.on, Color(style.fg) + Color(style.bg))
  }

  function ActiveSgr(style: Style): string {
    if ActiveParams(style) == [] then "" else CSI + Join(ActiveParams(style), ';') + "m"
  }

  function ActiveCodes(state: State): string {
    ActiveSgr(state.style) + if state.link.Some? then FormatOsc8Hyperlink(state.link.value) else ""
  }

  // ---- Every state that text can lead to ----

  /** A colour as the tracker keeps it: one parameter in plain form, or an extended colour for `kind`. */
  ghost predicate IsColor(color: seq<Param>, foreground: bool) {
    && AllDigits(color)
    && ((|color| == 1
         && exists n: nat :: (if foreground then StandardFg(n) else StandardBg(n)) && color[0] == ToString(n))
        || (|color| > 0 && ColorLength(color) == |color| && ParseInt(color[0]) == Some(if foreground then 38 else 48)))
  }

  ghost predicate GoodStyle(style: Style) {
    (style.fg.Some? ==> IsColor(style.fg.value, true)) && (style.bg.Some? ==> IsColor(style.bg.value, false))
  }

  predicate GoodLink(link: Hyperlink) {
    IsCode(FormatOsc8Hyperlink(link)) && ParseOsc8Hyperlink(FormatOsc8Hyperlink(link)) == Opened(link)
  }

  ghost predicate Good(state: State) {
    GoodStyle(state.style) && (state.link.Some? ==> GoodLink(state.link.value))
  }

  lemma StandardGood(style: Style, code: Option<nat>)
    requires GoodStyle(style)
    ensures GoodStyle(Standard(style, code))
  {
    hide IsColor, AttributeCode;
    if code.Some? {
      var n := code.value;
      if StandardFg(n) { PlainColor(n, true); }
      if StandardBg(n) { PlainColor(n, false); }
    }
  }

  lemma PlainColor(n: nat, foreground: bool)
    requires if foreground then StandardFg(n) else StandardBg(n)
    ensures IsColor([ToString(n)], foreground)
  {}

  lemma ColorGood(style: Style, parts: seq<Param>)
    requires GoodStyle(style) && AllDigits(parts) && ColorLength(parts) > 0
    ensures GoodStyle(WithColor(style, parts[..ColorLength(parts)]))
  {
    hide IsColor, ColorLength;
    ExtendedColor(parts);
  }

  lemma ExtendedColor(parts: seq<Param>)
    requires AllDigits(parts) && ColorLength(parts) > 0
    ensures IsColor(parts[..ColorLength(parts)], ParseInt(parts[0]) == Some(38))
  {
    hide ParseInt;
  }

  lemma {:induction false} ApplyGood(style: Style, parts: seq<Param>)
    requires GoodStyle(style) && AllDigits(parts)
    ensures GoodStyle(Apply(style, parts))
    decreases |parts|
  {
    hide GoodStyle, Standard, WithColor, ColorLength;
    if parts != [] {
      var n := ColorLength(parts);
      if n > 0 {
        ColorGood(style, parts);
        ApplyGood(WithColor(style, parts[..n]), parts[n..]);
      } else {
        StandardGood(style, ParseInt(parts[0]));
        ApplyGood(Standard(style, ParseInt(parts[0])), parts[1..]);
      }
    }
  }

  lemma ProcessedGood(state: State, code: string)
    requires Good(state) && IsCode(code)
    ensures Good(Processed(state, code))
  {
    hide Apply, IsColor, FormatOsc8Hyperlink, ParseOsc8Hyperlink, IsCode;
    if ParseOsc8Hyperlink(code).Opened? {
      LinkReprinted(code);
    } else if SgrParams(code).Some? {
      SplitDigits(SgrParams(code).value);
      ApplyGood(state.style, Split(SgrParams(code).value, ';'));
    }
  }

  lemma {:induction false} UpdatedGood(state: State, text: string)
    requires Good(state)
    ensures Good(Updated(state, text))
    decreases |text|
  {
    hide Good, Processed, IsCode;
    if text != "" {
      var length := ExtractAnsiCode(text);
      if length.Some? {
        CodeFound(text, length.value);
        ProcessedGood(state, text[..length.value]);
        UpdatedGood(Processed(state, text[..length.value]), text[length.value..]);
      } else {
        UpdatedGood(state, text[1..]);
      }
    }
  }

  // ---- Reading what was printed ----

  lemma ApplyFlag(on: Attributes, set_: bool, param: Param, n: nat, rest: seq<Param>)
    requires ParseInt(param) == Some(n) && 0 < n < 30
    ensures Apply(Style(on, None, None), Flag(set_, param) + rest) ==
      Apply(Style(if set_ then AttributeCode(on, n) else on, None, None), rest)
  {
    hide AttributeCode;
    if set_ {
      assert ([param] + rest)[1..] == rest;
    } else {
      assert [] + rest == rest;
    }
  }

  lemma FlagNumbers()
    ensures ParseInt("1") == Some(1) && ParseInt("2") == Some(2) && ParseInt("3") == Some(3) && ParseInt("4") == Some(4)
    ensures ParseInt("5") == Some(5) && ParseInt("7") == Some(7) && ParseInt("8") == Some(8) && ParseInt("9") == Some(9)
  {}

  lemma ApplyFlags(on: Attributes, rest: seq<Param>)
    ensures Apply(PLAIN, Flags(on, rest)) == Apply(Style(on, None, None), rest)
  {
    hide Apply, Flag, ParseInt, LaterFlags;
    FlagNumbers();
    var f4 := Flag(on.underline, "4") + LaterFlags(on, rest);
    var f3 := Flag(on.italic, "3") + f4;
    var f2 := Flag(on.dim, "2") + f3;
    var s1 := NO_ATTRIBUTES.(bold := on.bold);
    var s2 := s1.(dim := on.dim);
    ApplyFlag(NO_ATTRIBUTES, on.bold, "1", 1, f2);
    ApplyFlag(s1, on.dim, "2", 2, f3);
    ApplyFlag(s2, on.italic, "3", 3, f4);
    ApplyFlag(s2.(italic := on.italic), on.underline, "4", 4, LaterFlags(on, rest));
    ApplyLaterFlags(on, rest);
  }

  lemma ApplyLaterFlags(on: Attributes, rest: seq<Param>)
    ensures var start := Attributes(on.bold, on.dim, on.italic, on.underline, false, false, false, false);
      Apply(Style(start, None, None), LaterFlags(on, rest)) == Apply(Style(on, None, None), rest)
  {
    hide Apply, Flag, ParseInt;
    FlagNumbers();
    var f8 := Flag(on.strikethrough, "9") + rest;
    var f7 := Flag(on.hidden, "8") + f8;
    var f6 := Flag(on.inverse, "7") + f7;
    var start := Attributes(on.bold, on.dim, on.italic, on.underline, false, false, false, false);
    var s1 := start.(blink := on.blink);
    var s2 := s1.(inverse := on.inverse);
    ApplyFlag(start, on.blink, "5", 5, f6);
    ApplyFlag(s1, on.inverse, "7", 7, f7);
    ApplyFlag(s2, on.hidden, "8", 8, f8);
    ApplyFlag(s2.(hidden := on.hidden), on.strikethrough, "9", 9, rest);
  }

  lemma ApplyColor(style: Style, color: seq<Param>, foreground: bool, rest: seq<Param>)
    requires IsColor(color, foreground)
    ensures Apply(style, color + rest) ==
      Apply(if foreground then style.(fg := Some(color)) else style.(bg := Some(color)), rest)
  {
    hide Apply, ColorLength, ToString, ParseInt, AllDigits;
    if ColorLength(color) == |color| > 0 {
      ApplyExtended(style, color, rest);
    } else {
      var n: nat :| (if foreground then StandardFg(n) else StandardBg(n)) && color[0] == ToString(n);
      assert color == [ToString(n)];
      ApplyPlain(style, n, rest);
    }
  }

  lemma ApplyExtended(style: Style, color: seq<Param>, rest: seq<Param>)
    requires ColorLength(color) == |color| > 0
    ensures Apply(style, color + rest) == Apply(WithColor(style, color), rest)
  {
    hide ParseInt, WithColor;
    var all := color + rest;
    assert all[0] == color[0] && all[1] == color[1];
    assert ColorLength(all) == |color|;
    assert all[|color|..] == rest && all[..|color|] == color;
  }

  lemma ApplyPlain(style: Style, n: nat, rest: seq<Param>)
    requires StandardFg(n) || StandardBg(n)
    ensures Apply(style, [ToString(n)] + rest) == Apply(Standard(style, Some(n)), rest)
  {
    hide ParseInt, ToString, Standard;
    PrintedInt(n);
    var all := [ToString(n)] + rest;
    assert all[0] == ToString(n) && all[1..] == rest;
    assert ColorLength(all) == 0;
  }

  lemma ApplyActive(style: Style)
    requires GoodStyle(style)
    ensures Apply(PLAIN, ActiveParams(style)) == style
  {
    hide Apply, IsColor, Flags;
    var flagged := style.(fg := None, bg := None);
    ApplyNothing(style);
    ApplyFlags(style.on, Color(style.fg) + Color(style.bg));
    ApplyColors(flagged, style.fg, style.bg);
  }

  lemma ApplyColors(style: Style, fg: Option<seq<Param>>, bg: Option<seq<Param>>)
    requires style.fg.None? && style.bg.None?
    requires (fg.Some? ==> IsColor(fg.value, true)) && (bg.Some? ==> IsColor(bg.value, false))
    ensures Apply(style, Color(fg) + Color(bg)) == style.(fg := fg, bg := bg)
  {
    hide Apply, IsColor;
    ApplyNothing(style.(fg := fg, bg := bg));
    if fg.Some? {
      ApplyColor(style, fg.value, true, Color(bg));
    } else {
      assert Color(fg) + Color(bg) == Color(bg);
    }
    if bg.Some? {
      ApplyColor(style.(fg := fg), bg.value, false, []);
      assert bg.value + [] == bg.value;
    }
  }

  lemma ApplyNothing(style: Style)
    ensures Apply(style, []) == style
  {}

  lemma {:induction false} FinalAtEnd(s: string, j: nat)
    requires j < |s| && s[|s| - 1] == 'm' && ParamChars(s[j..|s| - 1])
    ensures FindFinal(s, j) == Some(|s|)
    decreases |s| - j
  {
    if j < |s| - 1 {
      assert s[j..|s| - 1][0] == s[j];
      assert s[j + 1..|s| - 1] == s[j..|s| - 1][1..];
      FinalAtEnd(s, j + 1);
    }
  }

  /** A parameter list in its brackets is a code, and an SGR code of just these parameters. */
  lemma SgrCode(params: string)
    requires ParamChars(params)
    ensures var code := CSI + params + "m";
      IsCode(code) && ParseOsc8Hyperlink(code) == NoLink && SgrParams(code) == Some(params)
  {
    var code := CSI + params + "m";
    assert code[2..|code| - 1] == params;
    FinalAtEnd(code, 2);
    assert code[1] != OSC8[1];
  }

  lemma ActiveDigits(style: Style)
    requires GoodStyle(style)
    ensures AllDigits(ActiveParams(style))
  {
    hide ColorLength, ParseInt, ToString;
    var colors := Color(style.fg) + Color(style.bg);
    assert AllDigits(colors);
    FlagsDigits(style.on, colors);
  }

  lemma FlagDigits(on: bool, param: Param, rest: seq<Param>)
    requires Digits(param) && AllDigits(rest)
    ensures AllDigits(Flag(on, param) + rest)
  {}

  lemma FlagsDigits(on: Attributes, rest: seq<Param>)
    requires AllDigits(rest)
    ensures AllDigits(Flags(on, rest))
  {
    hide AllDigits, Flag;
    var f8 := Flag(on.strikethrough, "9") + rest;
    var f7 := Flag(on.hidden, "8") + f8;
    var f6 := Flag(on.inverse, "7") + f7;
    var f5 := Flag(on.blink, "5") + f6;
    var f4 := Flag(on.underline, "4") + f5;
    var f3 := Flag(on.italic, "3") + f4;
    var f2 := Flag(on.dim, "2") + f3;
    FlagDigits(on.strikethrough, "9", rest);
    FlagDigits(on.hidden, "8", f8);
    FlagDigits(on.inverse, "7", f7);
    FlagDigits(on.blink, "5", f6);
    FlagDigits(on.underline, "4", f5);
    FlagDigits(on.italic, "3", f4);
    FlagDigits(on.dim, "2", f3);
    FlagDigits(on.bold, "1", f2);
  }

  lemma FromPlain(params: string)
    ensures ApplyParams(PLAIN, params) == Apply(PLAIN, Split(params, ';'))
  {
    if params == "" {
      assert [""][1..] == [];
    } else if params == "0" {
      SplitFirst("0", "", ';');
      assert "0"[..0] == "" && ["0"][1..] == [];
      assert ParseInt("0") == Some(0);
    }
  }

  /** Reading the printed SGR code from the plain style gives the style; nothing is printed for the plain style. */
  lemma StyleReprinted(style: Style, link: Option<Hyperlink>)
    requires GoodStyle(style)
    ensures ActiveSgr(style) == "" ==> style == PLAIN
    ensures ActiveSgr(style) != "" ==>
      IsCode(ActiveSgr(style)) && Processed(State(PLAIN, link), ActiveSgr(style)) == State(style, link)
  {
    hide Apply, IsColor, GoodStyle, ActiveParams, ApplyParams, IsCode, ParseOsc8Hyperlink, SgrParams, Split, Join;
    ApplyActive(style);
    ActiveDigits(style);
    if ActiveParams(style) == [] {
      ApplyNothing(PLAIN);
    } else {
      SplitJoin(ActiveParams(style), ';');
      JoinChars(ActiveParams(style));
      FromPlain(Join(ActiveParams(style), ';'));
      SgrCode(Join(ActiveParams(style), ';'));
    }
  }

  lemma UpdatedByCode(state: State, code: string, rest: string)
    requires IsCode(code)
    ensures Updated(state, code + rest) == Updated(Processed(state, code), rest)
  {
    hide Processed;
    assert (code + rest)[..|code|] == code && (code + rest)[|code|..] == rest;
    CodeFound(code + rest, |code|);
  }

  lemma StateReprinted(state: State)
    requires Good(state)
    ensures Updated(CLEAR, ActiveCodes(state)) == state
  {
    hide Processed, IsCode, Updated, ActiveSgr, FormatOsc8Hyperlink, GoodStyle;
    var style := State(state.style, None);
    var link := if state.link.Some? then FormatOsc8Hyperlink(state.link.value) else "";
    StyleReprinted(state.style, None);
    NoText(state);
    if ActiveSgr(state.style) != "" {
      UpdatedByCode(CLEAR, ActiveSgr(state.style), link);
    } else {
      assert "" + link == link;
    }
    if state.link.Some? {
      UpdatedByCode(style, link, "");
      assert link + "" == link;
      LinkProcessed(style, state.link.value);
    }
  }

  lemma NoText(state: State)
    ensures Updated(state, "") == state
  {}

  lemma LinkProcessed(state: State, link: Hyperlink)
    requires GoodLink(link)
    ensures Processed(state, FormatOsc8Hyperlink(link)) == state.(link := Some(link))
  {}

  /** For every text read: printing the state it leads to, and reading that from a clear start, gives that state. */
  lemma RoundTrip(text: string)
    ensures var state := Updated(CLEAR, text);
      Updated(CLEAR, ActiveCodes(state)) == state
  {
    hide Good, Updated, ActiveCodes;
    ClearGood();
    UpdatedGood(CLEAR, text);
    StateReprinted(Updated(CLEAR, text));
  }

  lemma ClearGood()
    ensures Good(CLEAR)
  {}

  // ---- Codes set or keep ----

  /** From two values: made the same, or both kept. */
  predicate Alike<T(==)>(a: T, b: T, a': T, b': T) {
    a' == b' || (a' == a && b' == b)
  }

  predicate AttributesAlike(a: Attributes, b: Attributes, a': Attributes, b': Attributes) {
    && Alike(a.bold, b.bold, a'.bold, b'.bold) && Alike(a.dim, b.dim, a'.dim, b'.dim)
    && Alike(a.italic, b.italic, a'.italic, b'.italic) && Alike(a.underline, b.underline, a'.underline, b'.underline)
    && Alike(a.blink, b.blink, a'.blink, b'.blink) && Alike(a.inverse, b.inverse, a'.inverse, b'.inverse)
    && Alike(a.hidden, b.hidden, a'.hidden, b'.hidden)
    && Alike(a.strikethrough, b.strikethrough, a'.strikethrough, b'.strikethrough)
  }

  predicate StylesAlike(a: Style, b: Style, a': Style, b': Style) {
    AttributesAlike(a.on, b.on, a'.on, b'.on) && Alike(a.fg, b.fg, a'.fg, b'.fg) && Alike(a.bg, b.bg, a'.bg, b'.bg)
  }

  lemma AttributeAlike(a: Attributes, b: Attributes, n: nat)
    ensures AttributesAlike(a, b, AttributeCode(a, n), AttributeCode(b, n))
  {}

  lemma StandardAlike(a: Style, b: Style, code: Option<nat>)
    ensures StylesAlike(a, b, Standard(a, code), Standard(b, code))
  {
    hide AttributesAlike, AttributeCode;
    SameAlike(a.on, b.on);
    if code.Some? {
      AttributeAlike(a.on, b.on, code.value);
    }
  }

  lemma SameAlike(a: Attributes, b: Attributes)
    ensures AttributesAlike(a, b, a, b)
    ensures forall c :: AttributesAlike(a, b, c, c)
  {}

  lemma AlikeTwice(a: Style, b: Style, a': Style, b': Style, a'': Style, b'': Style)
    requires StylesAlike(a, b, a', b') && StylesAlike(a', b', a'', b'')
    ensures StylesAlike(a, b, a'', b'')
  {}

  lemma {:induction false} ApplyAlike(a: Style, b: Style, parts: seq<Param>)
    ensures StylesAlike(a, b, Apply(a, parts), Apply(b, parts))
    decreases |parts|
  {
    hide StylesAlike, Standard, WithColor, ColorLength;
    if parts == [] {
      KeptAlike(a, b);
    } else {
      var n := ColorLength(parts);
      if n > 0 {
        ColorAlike(a, b, parts[..n]);
        ApplyAlike(WithColor(a, parts[..n]), WithColor(b, parts[..n]), parts[n..]);
        AlikeTwice(a, b, WithColor(a, parts[..n]), WithColor(b, parts[..n]), Apply(a, parts), Apply(b, parts));
      } else {
        var code := ParseInt(parts[0]);
        StandardAlike(a, b, code);
        ApplyAlike(Standard(a, code), Standard(b, code), parts[1..]);
        AlikeTwice(a, b, Standard(a, code), Standard(b, code), Apply(a, parts), Apply(b, parts));
      }
    }
  }

  lemma KeptAlike(a: Style, b: Style)
    ensures StylesAlike(a, b, a, b)
    ensures StylesAlike(a, b, PLAIN, PLAIN)
  {}

  lemma ColorAlike(a: Style, b: Style, color: seq<Param>)
    requires color != []
    ensures StylesAlike(a, b, WithColor(a, color), WithColor(b, color))
  {}

  /** An escape sequence treats two styles alike, and the link does not matter to it. */
  lemma ProcessedAlike(a: State, b: State, code: string)
    ensures StylesAlike(a.style, b.style, Processed(a, code).style, Processed(b, code).style)
    ensures a.link == b.link ==> Processed(a, code).link == Processed(b, code).link
  {
    hide StylesAlike, Apply, SgrParams, ParseOsc8Hyperlink, PLAIN;
    KeptAlike(a.style, b.style);
    if SgrParams(code).Some? {
      ApplyAlike(a.style, b.style, Split(SgrParams(code).value, ';'));
    }
  }

  // ---- Matching a code anywhere is matching all of it ----

  lemma {:induction false} FinalOnce(s: string, j: nat, k: nat)
    requires FindFinal(s, j) == Some(|s|) && j <= k < |s| - 1
    ensures !('@' <= s[k] <= '~')
    decreases k - j
  {
    if j < k {
      FinalOnce(s, j + 1, k);
    }
  }

  /** The pattern for SGR codes is not anchored, but in a code that ends with `m` it can match nothing but the whole. */
  lemma MatchIsWhole(code: string, i: nat, j: nat)
    requires IsCode(code) && code[|code| - 1] == 'm'
    requires i + 2 <= j < |code| && code[i..i + 2] == CSI && code[j] == 'm'
    ensures i == 0 && j == |code| - 1
  {
    if code[1] != '[' {
      TerminatorFound(code, 2);
    } else {
      assert code[i..i + 2][0] == code[i] && code[i..i + 2][1] == code[i + 1];
      if i + 1 > 1 {
        FinalOnce(code, 2, i + 1);
      }
      if j < |code| - 1 {
        FinalOnce(code, 2, j);
      }
    }
  }

  // ---- The tracker ----

  /** The parameters of the attributes that are on, with `rest` to follow. */
  method FlagCodes(on: Attributes, ghost rest: seq<Param>) returns (codes: seq<Param>)
    ensures codes + rest == Flags(on, rest)
  {
    hide Flag, LaterFlags;
    ghost var f4 := Flag(on.underline, "4") + LaterFlags(on, rest);
    ghost var f3 := Flag(on.italic, "3") + f4;
    ghost var f2 := Flag(on.dim, "2") + f3;
    codes := AddFlag([], on.bold, "1", f2);
    codes := AddFlag(codes, on.dim, "2", f3);
    codes := AddFlag(codes, on.italic, "3", f4);
    codes := AddFlag(codes, on.underline, "4", LaterFlags(on, rest));
    codes := LaterFlagCodes(codes, on, rest);
    assert [] + Flags(on, rest) == Flags(on, rest);
  }

  method LaterFlagCodes(codes: seq<Param>, on: Attributes, ghost rest: seq<Param>) returns (more: seq<Param>)
    ensures more + rest == codes + LaterFlags(on, rest)
  {
    hide Flag;
    ghost var f8 := Flag(on.strikethrough, "9") + rest;
    ghost var f7 := Flag(on.hidden, "8") + f8;
    ghost var f6 := Flag(on.inverse, "7") + f7;
    more := AddFlag(codes, on.blink, "5", f6);
    more := AddFlag(more, on.inverse, "7", f7);
    more := AddFlag(more, on.hidden, "8", f8);
    more := AddFlag(more, on.strikethrough, "9", rest);
  }

  /** One more parameter if the attribute is on, with `rest` to follow. */
  method AddFlag(codes: seq<Param>, on: bool, param: Param, ghost rest: seq<Param>) returns (more: seq<Param>)
    ensures more + rest == codes + (Flag(on, param) + rest)
  {
    more := if on then codes + [param] else codes;
  }

  class AnsiCodeTracker {
    var bold: bool
    var dim: bool
    var italic: bool
    var underline: bool
    var blink: bool
    var inverse: bool
    var hidden: bool
    var strikethrough: bool
    var fgColor: Option<seq<Param>>
    var bgColor: Option<seq<Param>>
    var activeHyperlink: Option<Hyperlink>

    function On(): Attributes
      reads `bold, `dim, `italic, `underline, `blink, `inverse, `hidden, `strikethrough
    {
      Attributes(bold, dim, italic, underline, blink, inverse, hidden, strikethrough)
    }

    function CurrentStyle(): Style
      reads this
    {
      Style(On(), fgColor, bgColor)
    }

    function Current(): State
      reads this
    {
      State(CurrentStyle(), activeHyperlink)
    }

    constructor ()
      ensures Current() == CLEAR
    {
      bold, dim, italic, underline, blink, inverse, hidden, strikethrough :=
        false, false, false, false, false, false, false, false;
      fgColor, bgColor, activeHyperlink := None, None, None;
    }

    /** A reset leaves the hyperlink open. */
    method Reset()
      modifies this
      ensures Current() == State(PLAIN, old(activeHyperlink))
    {
      bold, dim, italic, underline, blink, inverse, hidden, strikethrough :=
        false, false, false, false, false, false, false, false;
      fgColor, bgColor := None, None;
    }

    method Clear()
      modifies this
      ensures Current() == CLEAR
    {
      Reset();
      activeHyperlink := None;
    }

    method SwitchOn(n: nat)
      requires 0 < n < 20
      modifies `bold, `dim, `italic, `underline, `blink, `inverse, `hidden, `strikethrough
      ensures On() == AttributeCode(old(On()), n)
    {
      match n
      case 1 => bold := true;
      case 2 => dim := true;
      case 3 => italic := true;
      case 4 => underline := true;
      case 5 => blink := true;
      case 7 => inverse := true;
      case 8 => hidden := true;
      case 9 => strikethrough := true;
      case _ =>
    }

    method SwitchOff(n: nat)
      requires 20 <= n < 30
      modifies `bold, `dim, `italic, `underline, `blink, `inverse, `hidden, `strikethrough
      ensures On() == AttributeCode(old(On()), n)
    {
      match n
      case 21 => bold := false;
      case 22 => bold, dim := false, false;
      case 23 => italic := false;
      case 24 => underline := false;
      case 25 => blink := false;
      case 27 => inverse := false;
      case 28 => hidden := false;
      case 29 => strikethrough := false;
      case _ =>
    }

    method ProcessStandard(code: Option<nat>)
      modifies this
      ensures Current() == old(Current()).(style := Standard(old(CurrentStyle()), code))
    {
      hide AttributeCode, ToString;
      if code.None? { return; }
      var n := code.value;
      if n == 0 {
        Reset();
      } else if n < 20 {
        SwitchOn(n);
      } else if n < 30 {
        SwitchOff(n);
      } else if n == 39 {
        fgColor := None;
      } else if n == 49 {
        bgColor := None;
      } else if StandardFg(n) {
        fgColor := Some([ToString(n)]);
      } else if StandardBg(n) {
        bgColor := Some([ToString(n)]);
      }
    }

    /** The parameters one after another; an extended colour takes up three or five of them. */
    method ProcessParams(parts: seq<Param>)
      modifies this
      ensures Current() == old(Current()).(style := Apply(old(CurrentStyle()), parts))
    {
      hide Standard, ColorLength, ParseInt;
      var i := 0;
      while i < |parts|
        invariant i <= |parts| && activeHyperlink == old(activeHyperlink)
        invariant Apply(CurrentStyle(), parts[i..]) == Apply(old(CurrentStyle()), parts)
      {
        ghost var rest := parts[i..];
        var n := ColorLength(parts[i..]);
        assert rest[0] == parts[i] && rest[1..] == parts[i + 1..] && rest[n..] == parts[i + n..];
        if n > 0 {
          var color := parts[i..i + n];
          assert color == rest[..n];
          if ParseInt(parts[i]) == Some(38) {
            fgColor := Some(color);
          } else {
            bgColor := Some(color);
          }
          i := i + n;
        } else {
          ProcessStandard(ParseInt(parts[i]));
          i := i + 1;
        }
      }
      assert parts[i..] == [];
    }

    method Process(code: string)
      requires IsCode(code)
      modifies this
      ensures Current() == Processed(old(Current()), code)
    {
      hide Apply, Split, IsCode;
      var link := ParseOsc8Hyperlink(code);
      if link.Closed? {
        activeHyperlink := None;
        return;
      } else if link.Opened? {
        activeHyperlink := Some(link.link);
        return;
      }
      var params := SgrParams(code);
      if params.None? { return; }
      if params.value == "" || params.value == "0" {
        Reset();
        return;
      }
      ProcessParams(Split(params.value, ';'));
    }

    /** The parameters of the attributes that are on and of the colours. */
    method GetActiveSgr() returns (result: string)
      ensures result == ActiveSgr(CurrentStyle())
    {
      hide Flags;
      ghost var colors := Color(fgColor) + Color(bgColor);
      var codes := FlagCodes(On(), colors);
      codes := codes + (Color(fgColor) + Color(bgColor));
      result := if |codes| > 0 then CSI + Join(codes, ';') + "m" else "";
    }

    method GetActiveCodes() returns (result: string)
      ensures result == ActiveCodes(Current())
    {
      result := GetActiveSgr();
      if activeHyperlink.Some? {
        result := result + FormatOsc8Hyperlink(activeHyperlink.value);
      }
    }

    method HasActiveCodes() returns (active: bool)
      ensures active <==> Current() != CLEAR
    {
      active := bold || dim || italic || underline || blink || inverse || hidden || strikethrough
        || fgColor.Some? || bgColor.Some? || activeHyperlink.Some?;
    }

    method GetLineEndReset() returns (result: string)
      ensures result == LineEndReset(Current())
    {
      result := "";
      if underline { result := result + UNDERLINE_OFF; }
      if activeHyperlink.Some? { result := result + FormatOsc8Close(activeHyperlink.value.terminator); }
    }

    /** Reading a text: its escape sequences in order. */
    method UpdateFromText(text: string)
      modifies this
      ensures Current() == Updated(old(Current()), text)
    {
      hide Processed, IsCode;
      var i := 0;
      while i < |text|
        invariant i <= |text| && Updated(Current(), text[i..]) == Updated(old(Current()), text)
      {
        ghost var rest := text[i..];
        var length := ExtractAnsiCode(text[i..]);
        if length.Some? {
          CodeFound(text[i..], length.value);
          var code := text[i..i + length.value];
          assert code == rest[..length.value] && rest[length.value..] == text[i + length.value..];
          Process(code);
          i := i + length.value;
        } else {
          assert rest[1..] == text[i + 1..];
          i := i + 1;
        }
      }
      assert text[i..] == "";
    }
  }

  const UNDERLINE_OFF: string := CSI + "24m"

  /** What is printed at the end of a line: underline off, and an open link closed. */
  function LineEndReset(state: State): string {
    (if state.style.on.underline then UNDERLINE_OFF else "")
    + if state.link.Some? then FormatOsc8Close(state.link.value.terminator) else ""
  }
}
