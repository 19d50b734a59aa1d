/**
 Collecting a bracketed paste that arrives in chunks. Only a proper prefix of the closing marker is held back, so the
 text already collected is never scanned again. What every call answers depends on the text fed so far and not on how
 it was cut into chunks: the class contracts are stated over that text.
 */
module BracketedPaste {
  import opened Results
  import opened Strings

  const PASTE_START := "\U{1b}[200~"
  const PASTE_END := "\U{1b}[201~"
  const CHUNK_GROUP_SIZE := 256

  predicate EndsWith(s: string, suffix: string) {
    |suffix| <= |s| && s[|s| - |suffix|..] == suffix
  }

  /** The longest end of `text`, of at most `limit` characters, that begins the marker. */
  function HeldUpTo(text: string, marker: string, limit: nat): (n: nat)
    requires limit < |marker| && limit <= |text|
    ensures n <= limit && EndsWith(text, marker[..n])
    ensures forall k | n < k <= limit :: !EndsWith(text, marker[..k])
  {
    if limit == 0 || EndsWith(text, marker[..limit]) then limit else HeldUpTo(text, marker, limit - 1)
  }

  /** The length of the longest end of `text` that is a proper prefix of the marker. */
  function HeldLength(text: string, marker: string): (n: nat)
    requires marker != ""
    ensures n < |marker| && n <= |text| && EndsWith(text, marker[..n])
    ensures forall k | n < k < |marker| :: !EndsWith(text, marker[..k])
  {
    HeldUpTo(text, marker, if |text| < |marker| then |text| else |marker| - 1)
  }

  method ClosingMarkerPrefixLength(text: string) returns (n: nat)
    ensures n == HeldLength(text, PASTE_END)
  {
    var maxLength := if |text| < |PASTE_END| - 1 then |text| else |PASTE_END| - 1;
    var length := maxLength;
    while length > 0
      invariant 0 <= length <= maxLength
      invariant HeldUpTo(text, PASTE_END, length) == HeldUpTo(text, PASTE_END, maxLength)
    {
      if EndsWith(text, PASTE_END[..length]) {
        return length;
      }
      length := length - 1;
    }
    return 0;
  }

  /** The end of `text` that could still begin the marker. */
  function Held(text: string, marker: string): string
    requires marker != ""
  {
    text[|text| - HeldLength(text, marker)..]
  }

  /** A marker that ends in new input starts no earlier than the held end of the text before it. */
  lemma MarkerInHeld(text: string, input: string, marker: string, i: int)
    requires marker != "" && !Occurs(text, marker)
    requires OccursAt(text + input, marker, i)
    ensures i >= |text| - HeldLength(text, marker)
  {
    var all := text + input;
    if i + |marker| <= |text| {
      assert text[i..i + |marker|] == all[i..i + |marker|];
      assert OccursAt(text, marker, i);
    } else if i < |text| {
      var k := |text| - i;
      var begun := all[i..i + |marker|][..k];
      assert begun == marker[..k];
      assert text[i..] == begun;
      assert EndsWith(text, marker[..k]);
    }
  }

  lemma OccursShift(front: string, s: string, marker: string, i: int)
    ensures i >= 0 ==> (OccursAt(front + s, marker, |front| + i) <==> OccursAt(s, marker, i))
  {
    if i >= 0 && i + |marker| <= |s| {
      assert (front + s)[|front| + i..|front| + i + |marker|] == s[i..i + |marker|];
    }
  }

  lemma FirstShifted(whole: string, rest: string, marker: string, skipped: nat)
    requires forall i :: OccursAt(whole, marker, i) <==> i >= skipped && OccursAt(rest, marker, i - skipped)
    ensures var here := IndexOf(rest, marker);
      IndexOf(whole, marker) == if here == -1 then -1 else skipped + here
  {
    hide OccursAt;
    var first, here := IndexOf(whole, marker), IndexOf(rest, marker);
    if first != -1 {
      assert OccursAt(whole, marker, first);
    }
    if here != -1 {
      assert OccursAt(whole, marker, skipped + here) <==> OccursAt(rest, marker, skipped + here - skipped);
    }
  }

  /** Searching the held end and the new input finds the first marker of the whole text. */
  lemma SearchHeld(text: string, input: string, marker: string)
    requires marker != "" && !Occurs(text, marker)
    ensures var skipped := |text| - HeldLength(text, marker);
      var here := IndexOf(Held(text, marker) + input, marker);
      IndexOf(text + input, marker) == if here == -1 then -1 else skipped + here
  {
    hide Occurs, OccursAt, HeldLength, IndexOf;
    var skipped := |text| - HeldLength(text, marker);
    var rest := Held(text, marker) + input;
    assert text + input == text[..skipped] + rest;
    forall i
      ensures OccursAt(text + input, marker, i) <==> i >= skipped && OccursAt(rest, marker, i - skipped)
    {
      if OccursAt(text + input, marker, i) {
        MarkerInHeld(text, input, marker, i);
      }
      OccursShift(text[..skipped], rest, marker, i - skipped);
    }
    FirstShifted(text + input, rest, marker, skipped);
  }

  /** An end of the whole text that begins the marker lies within the held end and the new input. */
  lemma EndsInHeld(text: string, input: string, marker: string, k: nat)
    requires k < |marker|
    ensures EndsWith(text + input, marker[..k]) <==> EndsWith(Held(text, marker) + input, marker[..k])
  {
    var all, rest := text + input, Held(text, marker) + input;
    if k <= |rest| {
      assert rest[|rest| - k..] == all[|all| - k..];
    }
    if |input| < k && EndsWith(all, marker[..k]) {
      EndsBefore(text, input, marker, k);
    }
  }

  /** What of such an end lies before the input begins the marker too. */
  lemma EndsBefore(text: string, input: string, marker: string, k: nat)
    requires |input| < k < |marker| && EndsWith(text + input, marker[..k])
    ensures EndsWith(text, marker[..k - |input|])
  {
    var all, n := text + input, k - |input|;
    assert text[|text| - n..] == all[|all| - k..][..n];
    assert marker[..k][..n] == marker[..n];
  }

  /** The held end of the whole text is that of the held end and the new input. */
  lemma HoldHeld(text: string, input: string, marker: string)
    requires marker != ""
    ensures HeldLength(text + input, marker) == HeldLength(Held(text, marker) + input, marker)
  {
    var n, m := HeldLength(text + input, marker), HeldLength(Held(text, marker) + input, marker);
    EndsInHeld(text, input, marker, n);
    EndsInHeld(text, input, marker, m);
  }

  lemma Pieces(text: string, input: string, skipped: nat, from: nat, end: nat)
    requires from <= skipped <= |text| && end <= |text| - skipped + |input|
    ensures var candidate := text[skipped..] + input;
      && text[from..skipped] + candidate[..end] == (text + input)[from..skipped + end]
      && candidate[end..] == (text + input)[skipped + end..]
  {
    assert text + input == text[..skipped] + (text[skipped..] + input);
  }

  lemma MarkerLength()
    ensures |PASTE_END| == 6
  {}

  lemma NothingHeld()
    ensures HeldLength("", PASTE_END) == 0 && !Occurs("", PASTE_END)
  {}

  lemma HeldNothing()
    ensures Held("", PASTE_END) == ""
  {}

  lemma NothingCollected()
    ensures Concat([]) + Concat([]) == ""
  {}

  lemma FoundInside(s: string, marker: string)
    requires IndexOf(s, marker) != -1
    ensures 0 <= IndexOf(s, marker) && IndexOf(s, marker) + |marker| <= |s|
  {}

  datatype PasteResult =
    | Unhandled(data: string)
    | Pending
    | Complete(content: string, remainder: string)

  class BracketedPasteBuffer {
    var groups: seq<string>
    var chunks: seq<string>
    var closingMarkerPrefix: string
    var active: bool
    /** All text since the start marker, and how much of it was given out. */
    ghost var fed: string
    ghost var drained: nat

    constructor ()
      ensures Valid() && !active
    {
      groups, chunks, closingMarkerPrefix, active := [], [], "", false;
      fed, drained := "", 0;
    }

    /** Collected text is what was fed and not given out, up to the held end. */
    ghost predicate Valid()
      reads this
    {
      if !active then groups == [] && chunks == [] && closingMarkerPrefix == ""
      else
        && !Occurs(fed, PASTE_END)
        && closingMarkerPrefix == Held(fed, PASTE_END)
        && drained <= |fed| - HeldLength(fed, PASTE_END)
        && Concat(groups) + Concat(chunks) == fed[drained..|fed| - HeldLength(fed, PASTE_END)]
    }

    method FlushChunkGroup()
      modifies `groups, `chunks
      ensures chunks == [] && Concat(groups) == old(Concat(groups) + Concat(chunks))
    {
      if |chunks| == 0 {
        return;
      }
      groups := groups + [Concat(chunks)];
      chunks := [];
    }

    method AppendContent(content: string)
      modifies `groups, `chunks
      ensures Concat(groups) + Concat(chunks) == old(Concat(groups) + Concat(chunks)) + content
    {
      if content == "" {
        return;
      }
      chunks := chunks + [content];
      if |chunks| >= CHUNK_GROUP_SIZE {
        FlushChunkGroup();
      }
    }

    method TakeCollected() returns (content: string)
      modifies `groups, `chunks
      ensures content == old(Concat(groups) + Concat(chunks)) && groups == [] && chunks == []
    {
      FlushChunkGroup();
      content := Concat(groups);
      groups := [];
    }

    method Reset()
      modifies this
      ensures Valid() && !active
    {
      groups, chunks, closingMarkerPrefix, active := [], [], "", false;
    }

    /** Release collected text without treating an idle gap as a closing marker. */
    method DrainPending() returns (content: Option<string>)
      requires Valid()
      modifies `groups, `chunks, `drained
      ensures Valid()
      ensures !active ==> content == None
      ensures active ==> old(drained) <= drained == |fed| - HeldLength(fed, PASTE_END)
      ensures active ==> content == Some(fed[old(drained)..drained])
    {
      if !active {
        return None;
      }
      var collected := TakeCollected();
      content := Some(collected);
      drained := |fed| - HeldLength(fed, PASTE_END);
    }

    /** The marker was found: what was collected and the text up to the marker are the content. */
    method CompleteAt(candidate: string, endIndex: nat) returns (result: PasteResult)
      requires endIndex + |PASTE_END| <= |candidate|
      modifies this
      ensures Valid() && !active
      ensures result == Complete(old(Concat(groups) + Concat(chunks)) + candidate[..endIndex],
                                 candidate[endIndex + |PASTE_END|..])
    {
      hide Concat, PASTE_END;
      AppendContent(candidate[..endIndex]);
      var content := TakeCollected();
      var remainder := candidate[endIndex + |PASTE_END|..];
      Reset();
      return Complete(content, remainder);
    }

    /** No marker yet: all but the held end is collected. */
    method Hold(candidate: string)
      modifies `groups, `chunks, `closingMarkerPrefix
      ensures Concat(groups) + Concat(chunks) ==
        old(Concat(groups) + Concat(chunks)) + candidate[..|candidate| - HeldLength(candidate, PASTE_END)]
      ensures closingMarkerPrefix == candidate[|candidate| - HeldLength(candidate, PASTE_END)..]
    {
      hide Concat, PASTE_END;
      var prefixLength := ClosingMarkerPrefixLength(candidate);
      var contentEnd := |candidate| - prefixLength;
      AppendContent(candidate[..contentEnd]);
      closingMarkerPrefix := if prefixLength == 0 then "" else candidate[contentEnd..];
    }

    /** The paste completes with the chunk in which the first closing marker of all text fed so far is complete. */
    method ConsumeActive(input: string) returns (result: PasteResult)
      requires Valid() && active
      modifies this
      ensures Valid()
      ensures var all := old(fed) + input;
        var end := IndexOf(all, PASTE_END);
        if end == -1 then result == Pending && active && fed == all && drained == old(drained)
        else !active && old(drained) <= end && result == Complete(all[old(drained)..end], all[end + |PASTE_END|..])
    {
      hide Occurs, OccursAt, IndexOf, HeldLength, EndsWith, Concat, PASTE_END;
      ghost var text, from := fed, drained;
      ghost var skipped := |text| - HeldLength(text, PASTE_END);
      var candidate := closingMarkerPrefix + input;
      var endIndex := IndexOf(candidate, PASTE_END);
      SearchHeld(text, input, PASTE_END);
      if endIndex != -1 {
        FoundInside(candidate, PASTE_END);
        Pieces(text, input, skipped, from, endIndex);
        Pieces(text, input, skipped, from, endIndex + |PASTE_END|);
        result := CompleteAt(candidate, endIndex);
      } else {
        HoldHeld(text, input, PASTE_END);
        Pieces(text, input, skipped, from, |candidate| - HeldLength(candidate, PASTE_END));
        Hold(candidate);
        fed := text + input;
        result := Pending;
      }
    }

    method Begin()
      modifies this
      ensures Valid() && active && fed == "" && drained == 0
    {
      hide Occurs, HeldLength, Held, Concat, PASTE_END;
      Reset();
      active := true;
      fed, drained := "", 0;
      NothingHeld();
      HeldNothing();
      NothingCollected();
      assert fed[0..0] == "";
    }

    method Start(content: string) returns (result: PasteResult)
      modifies this
      ensures Valid()
      ensures var end := IndexOf(content, PASTE_END);
        if end == -1 then result == Pending && active && fed == content && drained == 0
        else !active && result == Complete(content[..end], content[end + |PASTE_END|..])
    {
      hide Occurs, IndexOf, HeldLength, EndsWith, Concat, PASTE_END;
      Begin();
      assert fed + content == content;
      result := ConsumeActive(content);
    }

    method AppendChunk(input: string) returns (result: PasteResult)
      requires Valid()
      modifies this
      ensures Valid()
      ensures var all := if old(active) then old(fed) + input else input;
        var from := if old(active) then old(drained) else 0;
        var end := IndexOf(all, PASTE_END);
        if end == -1 then result == Pending && active && fed == all && drained == from
        else !active && from <= end && result == Complete(all[from..end], all[end + |PASTE_END|..])
    {
      if !active {
        result := Start(input);
      } else {
        result := ConsumeActive(input);
      }
    }

    /** Text before a start marker in the same input counts as content. */
    method Consume(input: string) returns (result: PasteResult)
      requires Valid()
      modifies this
      ensures Valid()
      ensures var start := IndexOf(input, PASTE_START);
        if !old(active) && start == -1 then result == Unhandled(input) && !active
        else
          var all := if old(active) then old(fed) + input else input[..start] + input[start + |PASTE_START|..];
          var from := if old(active) then old(drained) else 0;
          var end := IndexOf(all, PASTE_END);
          if end == -1 then result == Pending && active && fed == all && drained == from
          else !active && from <= end && result == Complete(all[from..end], all[end + |PASTE_END|..])
    {
      if !active {
        var startIndex := IndexOf(input, PASTE_START);
        if startIndex == -1 {
          return Unhandled(input);
        }
        result := Start(input[..startIndex] + input[startIndex + |PASTE_START|..]);
      } else {
        result := AppendChunk(input);
      }
    }

    /** Give up on the closing marker: everything not given out yet is content. */
    method FlushPending() returns (content: Option<string>)
      requires Valid()
      modifies this
      ensures Valid() && !active
      ensures content == if old(active) then Some(old(fed)[old(drained)..]) else None
    {
      if !active {
        return None;
      }
      AppendContent(closingMarkerPrefix);
      var collected := TakeCollected();
      content := Some(collected);
      assert fed[drained..] == fed[drained..|fed| - HeldLength(fed, PASTE_END)] + Held(fed, PASTE_END);
      Reset();
    }
  }
}
