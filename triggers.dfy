/**
 * The two ways a lookup starts: the search field's `input` handler, which
 * debounces through a single timer, and the form's `submit` handler, which
 * looks up at once. Time is abstract: the timer firing is an event.
 */
module Triggers {
  import opened Basics

  /** The characters `String.prototype.trim` removes: white space and line terminators. */
  predicate IsJsWhitespace(c: char)
  {
    var n := c as int;
    n == 0x9 || n == 0xA || n == 0xB || n == 0xC || n == 0xD || n == 0x20 || n == 0xA0 ||
    n == 0x1680 || 0x2000 <= n <= 0x200A || n == 0x2028 || n == 0x2029 || n == 0x202F ||
    n == 0x205F || n == 0x3000 || n == 0xFEFF
  }

  predicate AllWhitespace(s: string)
  {
    forall i :: 0 <= i < |s| ==> IsJsWhitespace(s[i])
  }

  /** The first position at or after `i` that does not hold white space, or `|s|`. */
  function SkipLeading(s: string, i: nat): (j: nat)
    requires i <= |s|
    ensures i <= j <= |s|
    ensures forall k :: i <= k < j ==> IsJsWhitespace(s[k])
    ensures j < |s| ==> !IsJsWhitespace(s[j])
    decreases |s| - i
  {
    if i < |s| && IsJsWhitespace(s[i]) then SkipLeading(s, i + 1) else i
  }

  /** Where `s[i..j]` ends once its trailing white space is dropped. */
  function SkipTrailing(s: string, i: nat, j: nat): (k: nat)
    requires i <= j <= |s|
    ensures i <= k <= j
    ensures forall m :: k <= m < j ==> IsJsWhitespace(s[m])
    ensures i < k ==> !IsJsWhitespace(s[k - 1])
    decreases j - i
  {
    if i < j && IsJsWhitespace(s[j - 1]) then SkipTrailing(s, i, j - 1) else j
  }

  /** `s.trim()`: the part of `s` between its leading and trailing white space. */
  function Trim(s: string): (r: string)
    ensures r == [] <==> AllWhitespace(s)
    ensures r != [] ==> !IsJsWhitespace(r[0]) && !IsJsWhitespace(r[|r| - 1])
  {
    var i := SkipLeading(s, 0);
    var k := SkipTrailing(s, i, |s|);
    assert k == i ==> i == |s|;
    s[i..k]
  }

  /** Trimming removes white space only: what it drops from each end is all white space. */
  lemma TrimCutsWhitespaceOnly(s: string)
    ensures var i := SkipLeading(s, 0); var r := Trim(s);
      i + |r| <= |s| && r == s[i..i + |r|] && AllWhitespace(s[..i]) && AllWhitespace(s[i + |r|..])
  {
    var i := SkipLeading(s, 0);
    var k := SkipTrailing(s, i, |s|);
    assert Trim(s) == s[i..k];
    assert forall m :: 0 <= m < i ==> s[..i][m] == s[m];
    assert forall m :: 0 <= m < |s| - k ==> s[k..][m] == s[k + m];
  }

  /** Text with no white space at either end is its own trim. */
  lemma TrimLeavesUnpadded(s: string)
    requires s != [] ==> !IsJsWhitespace(s[0]) && !IsJsWhitespace(s[|s| - 1])
    ensures Trim(s) == s
  {
    if s != [] {
      assert SkipLeading(s, 0) == 0;
      assert SkipTrailing(s, 0, |s|) == |s|;
    }
  }

  /** Trimming twice is trimming once. */
  lemma TrimIdempotent(s: string)
    ensures Trim(Trim(s)) == Trim(s)
  {
    TrimLeavesUnpadded(Trim(s));
  }

  /** `Input(text)`: the field now holds `text`; `Fire`: the pending timer
      goes off; `Submit`: the form is submitted. */
  datatype Event = Input(text: string) | Fire | Submit

  /** The field's value and the name a pending timer will look up; `Option`
      makes "at most one pending timer" hold by construction. */
  datatype Trigger = Trigger(value: string, pending: Option<string>)

  datatype Effect = Nothing | ClearDisplay | LookUp(username: string)

  datatype Transition = Transition(next: Trigger, effect: Effect)

  /** The timer an input event leaves behind. */
  function Scheduled(text: string): Option<string>
  {
    var user := Trim(text);
    if user == "" then None else Some(user)
  }

  function Next(t: Trigger, e: Event): (s: Transition)
    // an input event discards any earlier timer: what is pending afterwards depends on the new text alone
    ensures e.Input? ==> s.next.value == e.text && s.next.pending == Scheduled(e.text)
    ensures e.Input? ==> s.next.pending != Some("")
    ensures s.effect == ClearDisplay <==> e.Input? && AllWhitespace(e.text)
    ensures s.effect.LookUp? <==> (e.Fire? && t.pending.Some?) || (e.Submit? && t.value != "")
    ensures e.Fire? ==> s.next == t.(pending := None) && (t.pending.Some? ==> s.effect == LookUp(t.pending.value))
    // submitting looks up the untrimmed value, empties the field and leaves the timer alone
    ensures e.Submit? ==> s.next.pending == t.pending
    ensures e.Submit? && t.value != "" ==> s.next.value == "" && s.effect == LookUp(t.value)
    ensures e.Submit? && t.value == "" ==> s == Transition(t, Nothing)
  {
    match e
    case Input(text) =>
      var user := Trim(text);
      if user == "" then Transition(Trigger(text, None), ClearDisplay)
      else Transition(Trigger(text, Some(user)), Nothing)
    case Fire =>
      (match t.pending
       case None => Transition(t, Nothing)
       case Some(user) => Transition(t.(pending := None), LookUp(user)))
    case Submit =>
      if t.value != "" then Transition(Trigger("", t.pending), LookUp(t.value))
      else Transition(t, Nothing)
  }

  function LookedUp(e: Effect): seq<string>
  {
    if e.LookUp? then [e.username] else []
  }

  /** The state after a sequence of events and the names looked up on the way. */
  datatype Trace = Trace(final: Trigger, lookups: seq<string>)

  function Run(t: Trigger, events: seq<Event>): Trace
    decreases |events|
  {
    if events == [] then Trace(t, [])
    else
      var before := Run(t, events[..|events| - 1]);
      var s := Next(before.final, events[|events| - 1]);
      Trace(s.next, before.lookups + LookedUp(s.effect))
  }

  function Typing(texts: seq<string>): seq<Event>
  {
    seq(|texts|, i requires 0 <= i < |texts| => Input(texts[i]))
  }

  /** Typing looks nothing up; afterwards only the last text's timer is pending. */
  lemma {:induction false} TypingOnlySchedules(t: Trigger, texts: seq<string>)
    requires texts != []
    ensures Run(t, Typing(texts)) == Trace(Trigger(texts[|texts| - 1], Scheduled(texts[|texts| - 1])), [])
  {
    var n := |texts| - 1;
    assert Typing(texts)[..n] == Typing(texts[..n]);
    if n > 0 {
      TypingOnlySchedules(t, texts[..n]);
    }
  }

  /** Debounce: a burst of input events followed by the timer firing looks up
      exactly once, the trimmed last text, or not at all when that is blank. */
  lemma DebounceLooksUpLastTextOnly(t: Trigger, texts: seq<string>)
    requires texts != []
    ensures var last := texts[|texts| - 1];
      Run(t, Typing(texts) + [Fire]) ==
      Trace(Trigger(last, None), if AllWhitespace(last) then [] else [Trim(last)])
  {
    var es := Typing(texts) + [Fire];
    assert es[..|es| - 1] == Typing(texts);
    TypingOnlySchedules(t, texts);
  }

  /** One more event extends a run by one step. */
  lemma RunSnoc(t: Trigger, events: seq<Event>, e: Event)
    ensures var before := Run(t, events); var s := Next(before.final, e);
      Run(t, events + [e]) == Trace(s.next, before.lookups + LookedUp(s.effect))
  {
    assert (events + [e])[..|events|] == events;
  }

  /** Submitting does not cancel the timer: a submit during the idle interval
      looks up the untrimmed text at once, and the timer then looks up the
      trimmed text a second time. */
  lemma SubmitThenTimerLooksUpTwice(t: Trigger, texts: seq<string>)
    requires texts != [] && !AllWhitespace(texts[|texts| - 1])
    ensures var last := texts[|texts| - 1];
      Run(t, Typing(texts) + [Submit, Fire]).lookups == [last, Trim(last)]
  {
    var last := texts[|texts| - 1];
    var submitted := Typing(texts) + [Submit];
    var mid := Run(t, submitted);
    assert mid == Trace(Trigger("", Scheduled(last)), [last]) by {
      TypingOnlySchedules(t, texts);
      RunSnoc(t, Typing(texts), Submit);
    }
    var user := Trim(last);
    assert mid.final == Trigger("", Some(user));
    var fire := Next(mid.final, Fire);
    assert fire.effect == LookUp(user);
    var fired := submitted + [Fire];
    assert Run(t, fired) == Trace(fire.next, mid.lookups + LookedUp(fire.effect)) by {
      RunSnoc(t, submitted, Fire);
    }
    assert fired == Typing(texts) + [Submit, Fire];
  }

  /** The example of typing "oct", then "octo", then pausing. */
  lemma TypingOctThenOcto()
    ensures Run(Trigger("", None), [Input("oct"), Input("octo"), Fire]).lookups == ["octo"]
  {
    assert Typing(["oct", "octo"]) + [Fire] == [Input("oct"), Input("octo"), Fire];
    DebounceLooksUpLastTextOnly(Trigger("", None), ["oct", "octo"]);
    assert !IsJsWhitespace('o');
    TrimLeavesUnpadded("octo");
  }
}
