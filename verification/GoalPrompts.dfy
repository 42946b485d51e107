/** The goal prompts: escaping the objective, filling a template, and framing the result between two markers. */
module GoalPrompts {
  import opened Text
  import opened GoalSlots

  // ---------------------------------------------------------------- escaping

  /** `s.replaceAll(c, with)`. */
  function ReplaceAll(s: string, c: char, with: string): string
  {
    if s == "" then "" else (if s[0] == c then with else [s[0]]) + ReplaceAll(s[1..], c, with)
  }

  /** `escapeXmlText`: three passes, the ampersand first. */
  function Escape(s: string): string
  {
    ReplaceAll(ReplaceAll(ReplaceAll(s, '&', "&amp;"), '<', "&lt;"), '>', "&gt;")
  }

  function Entity(c: char): string
  {
    if c == '&' then "&amp;" else if c == '<' then "&lt;" else if c == '>' then "&gt;" else [c]
  }

  function OnePass(s: string): string
  {
    if s == "" then "" else Entity(s[0]) + OnePass(s[1..])
  }

  /** Reads the three entities back; other text stands for itself. */
  function Unescape(s: string): string
  {
    if s == "" then ""
    else if "&amp;" <= s then "&" + Unescape(s[5..])
    else if "&lt;" <= s then "<" + Unescape(s[4..])
    else if "&gt;" <= s then ">" + Unescape(s[4..])
    else [s[0]] + Unescape(s[1..])
  }

  lemma {:induction false} ReplaceAllSplits(a: string, b: string, c: char, with: string)
    ensures ReplaceAll(a + b, c, with) == ReplaceAll(a, c, with) + ReplaceAll(b, c, with)
  {
    if a == "" {
      assert a + b == b;
    } else {
      assert (a + b)[1..] == a[1..] + b;
      ReplaceAllSplits(a[1..], b, c, with);
    }
  }

  lemma {:induction false} ReplaceNothing(s: string, c: char, with: string)
    requires c !in s
    ensures ReplaceAll(s, c, with) == s
  {
    if s != "" {
      ReplaceNothing(s[1..], c, with);
    }
  }

  lemma EscapeSplits(a: string, b: string)
    ensures Escape(a + b) == Escape(a) + Escape(b)
  {
    ReplaceAllSplits(a, b, '&', "&amp;");
    var a1, b1 := ReplaceAll(a, '&', "&amp;"), ReplaceAll(b, '&', "&amp;");
    ReplaceAllSplits(a1, b1, '<', "&lt;");
    ReplaceAllSplits(ReplaceAll(a1, '<', "&lt;"), ReplaceAll(b1, '<', "&lt;"), '>', "&gt;");
  }

  lemma ReplaceInChar(c: char, d: char, with: string)
    ensures ReplaceAll([c], d, with) == if c == d then with else [c]
  {
    assert [c][1..] == "" && with + "" == with;
  }

  lemma EscapeChar(c: char)
    ensures Escape([c]) == Entity(c)
  {
    ReplaceInChar(c, '&', "&amp;");
    ReplaceInChar(c, '<', "&lt;");
    ReplaceInChar(c, '>', "&gt;");
    if c == '&' {
      LaterPassesKeep("&amp;");
    } else if c == '<' {
      ReplaceNothing("&lt;", '>', "&gt;");
    }
  }

  lemma LaterPassesKeep(s: string)
    requires '<' !in s && '>' !in s
    ensures ReplaceAll(ReplaceAll(s, '<', "&lt;"), '>', "&gt;") == s
  {
    ReplaceNothing(s, '<', "&lt;");
    ReplaceNothing(s, '>', "&gt;");
  }

  /** The three passes are one pass that maps each character to its entity. */
  lemma {:induction false} EscapeIsOnePass(s: string)
    ensures Escape(s) == OnePass(s)
  {
    if s != "" {
      assert s == [s[0]] + s[1..];
      EscapeSplits([s[0]], s[1..]);
      EscapeChar(s[0]);
      EscapeIsOnePass(s[1..]);
    }
  }

  lemma UnescapeEntity(c: char, rest: string)
    ensures Unescape(Entity(c) + rest) == [c] + Unescape(rest)
  {
    var s := Entity(c) + rest;
    assert s[|Entity(c)|..] == rest;
    if c == '&' {
      assert s[..5] == "&amp;";
    } else if c == '<' {
      assert s[..4] == "&lt;" && s[1] == 'l';
    } else if c == '>' {
      assert s[..4] == "&gt;" && s[1] == 'g';
    } else {
      assert s[0] == c;
    }
  }

  /** Escaping loses nothing and leaves no angle bracket. */
  lemma {:induction false} EscapeRoundTrip(s: string)
    ensures Unescape(Escape(s)) == s
    ensures '<' !in Escape(s) && '>' !in Escape(s)
  {
    EscapeIsOnePass(s);
    if s != "" {
      EscapeRoundTrip(s[1..]);
      EscapeIsOnePass(s[1..]);
      UnescapeEntity(s[0], OnePass(s[1..]));
      assert s == [s[0]] + s[1..];
    }
  }

  // ---------------------------------------------------------------- templates

  predicate KeyChar(c: char) { 'a' <= c <= 'z' || c == '_' }

  /** The longest prefix made of key characters. */
  function Key(s: string): (k: string)
    ensures k <= s
  {
    if s != "" && KeyChar(s[0]) then [s[0]] + Key(s[1..]) else ""
  }

  /** The key of the hole a text starts with. */
  function Hole(t: string): (key: Option<string>)
    ensures key.Some? ==> key.value != "" && "{{ " + key.value + " }}" <= t
  {
    if "{{ " <= t then
      var key := Key(t[3..]);
      if key != "" && " }}" <= t[3 + |key|..] then
        assert t == t[..3] + key + t[3 + |key|..];
        Some(key)
      else None
    else None
  }

  /** `renderTemplate`: a hole without a value becomes empty. */
  function Render(t: string, values: map<string, string>): string
    decreases |t|
  {
    if t == "" then ""
    else
      var hole := Hole(t);
      if hole.Some? then
        (if hole.value in values then values[hole.value] else "") + Render(t[|hole.value| + 6..], values)
      else [t[0]] + Render(t[1..], values)
  }

  const START := "<goal_context>"
  const END := "</goal_context>"

  /** `goalContext`. */
  function GoalContext(prompt: string): string
  {
    START + "\n" + prompt + "\n" + END
  }

  /** `remainingThreadGoalTokens`. */
  function Remaining(budget: int, used: int): int { Max(0, budget - used) }

  function BudgetText(goal: Goal): string
  {
    if goal.tokenBudget.None? then "none" else Numeral(goal.tokenBudget.value)
  }

  /** The values of `continuationPrompt` and `objectiveUpdatedPrompt`. */
  function StepValues(goal: Goal): map<string, string>
  {
    map["objective" := Escape(goal.objective), "tokens_used" := Numeral(goal.tokensUsed), "token_budget" := BudgetText(goal),
        "remaining_tokens" := if goal.tokenBudget.None? then "unbounded"
                              else Numeral(Remaining(goal.tokenBudget.value, goal.tokensUsed))]
  }

  /** The values of `budgetLimitPrompt`. */
  function LimitValues(goal: Goal): map<string, string>
  {
    map["objective" := Escape(goal.objective), "time_used_seconds" := Numeral(goal.timeUsedSeconds),
        "tokens_used" := Numeral(goal.tokensUsed), "token_budget" := BudgetText(goal)]
  }

  // ---------------------------------------------------------------- rendering keeps the tags

  /** How often a pattern occurs. */
  function Count(text: string, pattern: string): nat
  {
    if text == "" then 0 else (if pattern <= text then 1 else 0) + Count(text[1..], pattern)
  }

  predicate Unbracketed(s: string) { '<' !in s && '>' !in s }

  predicate IsTag(tag: string)
  {
    |tag| >= 2 && tag[0] == '<' && tag[|tag| - 1] == '>' && Unbracketed(tag[1..|tag| - 1])
  }

  /** Every tag of the template is closed before the next hole. */
  predicate TagsClosed(t: string, open: bool)
    decreases |t|
  {
    if t == "" then !open
    else
      var hole := Hole(t);
      if hole.Some? then !open && TagsClosed(t[|hole.value| + 6..], open)
      else TagsClosed(t[1..], if t[0] == '<' then true else if t[0] == '>' then false else open)
  }

  ghost predicate PlainValues(values: map<string, string>)
  {
    forall key :: key in values ==> Unbracketed(values[key])
  }

  /** Text without a bracket in front of other text adds no tag. */
  lemma {:induction false} CountSkips(plain: string, rest: string, tag: string)
    requires '<' !in plain && tag != "" && tag[0] == '<'
    ensures Count(plain + rest, tag) == Count(rest, tag)
  {
    if plain == "" {
      assert plain + rest == rest;
    } else {
      var text := plain + rest;
      assert text[1..] == plain[1..] + rest && text[0] == plain[0];
      assert plain[0] in plain;
      CountSkips(plain[1..], rest, tag);
    }
  }

  lemma {:induction false} KeyIsPlain(s: string)
    ensures forall c :: c in Key(s) ==> KeyChar(c)
  {
    if s != "" && KeyChar(s[0]) {
      KeyIsPlain(s[1..]);
    }
  }

  lemma HoleIsPlain(t: string)
    requires Hole(t).Some?
    ensures Unbracketed(t[..|Hole(t).value| + 6])
  {
    var key := Hole(t).value;
    KeyIsPlain(t[3..]);
    assert t[..|key| + 6] == "{{ " + key + " }}";
  }

  /** Inside an open tag, rendering keeps what the tag continues with. */
  lemma {:induction false} OpenTagIsKept(t: string, body: string, values: map<string, string>)
    requires TagsClosed(t, true) && Unbracketed(body)
    ensures body + ">" <= Render(t, values) <==> body + ">" <= t
    decreases |t|
  {
    var rendered := Render(t, values);
    assert rendered == [t[0]] + Render(t[1..], values);
    assert body != "" ==> (body + ">")[0] == body[0] && body[0] in body;
    if t[0] != '<' && t[0] != '>' && body != "" {
      OpenTagIsKept(t[1..], body[1..], values);
      assert body + ">" == [body[0]] + (body[1..] + ">");
      PrefixStep(body[0], body[1..] + ">", rendered);
      PrefixStep(body[0], body[1..] + ">", t);
      assert rendered[1..] == Render(t[1..], values);
    }
  }

  lemma PrefixStep(c: char, rest: string, s: string)
    requires s != ""
    ensures [c] + rest <= s <==> c == s[0] && rest <= s[1..]
  {
    if c == s[0] && rest <= s[1..] {
      assert s == [c] + s[1..];
    }
    if [c] + rest <= s {
      assert s[1..][..|rest|] == s[..|rest| + 1][1..] == rest;
    }
  }

  /** A hole at the front adds no tag, neither as text nor as its value. */
  lemma HoleAddsNoTag(t: string, values: map<string, string>, tag: string)
    requires Hole(t).Some? && PlainValues(values) && IsTag(tag)
    ensures var rest := t[|Hole(t).value| + 6..];
      Count(t, tag) == Count(rest, tag) && Count(Render(t, values), tag) == Count(Render(rest, values), tag)
  {
    var key := Hole(t).value;
    var n := |key| + 6;
    HoleIsPlain(t);
    CountSkips(t[..n], t[n..], tag);
    assert t == t[..n] + t[n..];
    CountSkips(if key in values then values[key] else "", Render(t[n..], values), tag);
  }

  /** Rendering neither makes nor breaks a tag, whatever the values. */
  lemma {:induction false} RenderKeepsTags(t: string, open: bool, values: map<string, string>, tag: string)
    requires TagsClosed(t, open) && PlainValues(values) && IsTag(tag)
    ensures Count(Render(t, values), tag) == Count(t, tag)
    decreases |t|
  {
    if t != "" {
      var hole := Hole(t);
      if hole.Some? {
        RenderKeepsTags(t[|hole.value| + 6..], open, values, tag);
        HoleAddsNoTag(t, values, tag);
      } else {
        RenderKeepsTags(t[1..], if t[0] == '<' then true else if t[0] == '>' then false else open, values, tag);
        TagAtFront(t, open, values, tag);
        assert Render(t, values)[1..] == Render(t[1..], values);
      }
    }
  }

  lemma TagAtFront(t: string, open: bool, values: map<string, string>, tag: string)
    requires TagsClosed(t, open) && IsTag(tag) && t != "" && Hole(t).None?
    ensures tag <= Render(t, values) <==> tag <= t
  {
    var rendered := Render(t, values);
    assert rendered == [t[0]] + Render(t[1..], values);
    if t[0] == '<' {
      var body := tag[1..|tag| - 1];
      assert tag == ['<'] + (body + ">");
      OpenTagIsKept(t[1..], body, values);
      PrefixStep('<', body + ">", rendered);
      PrefixStep('<', body + ">", t);
      assert rendered[1..] == Render(t[1..], values);
    } else {
      assert tag == ['<'] + tag[1..];
      PrefixStep('<', tag[1..], rendered);
      PrefixStep('<', tag[1..], t);
    }
  }

  /** A pattern without line breaks does not reach across one. */
  lemma {:induction false} CountAcrossLines(a: string, b: string, pattern: string)
    requires pattern != "" && '\n' !in pattern
    ensures Count(a + "\n" + b, pattern) == Count(a, pattern) + Count(b, pattern)
  {
    var text := a + "\n" + b;
    if a == "" {
      assert text[1..] == b && text[0] == '\n';
      assert pattern[0] in pattern;
    } else {
      assert text[1..] == a[1..] + "\n" + b;
      CountAcrossLines(a[1..], b, pattern);
      assert text[|a|] == '\n';
      assert |pattern| > |a| ==> pattern[|a|] in pattern;
      assert pattern <= text <==> pattern <= a;
    }
  }

  /** A tag holds itself once and no other tag. */
  lemma CountInTag(text: string, tag: string)
    requires IsTag(text) && IsTag(tag)
    ensures Count(text, tag) == if text == tag then 1 else 0
  {
    var body := text[1..];
    assert body == text[1..|text| - 1] + ">";
    CountSkips(body, "", tag);
    assert body + "" == body;
    if tag <= text {
      assert tag[|tag| - 1] == text[|tag| - 1];
    }
  }

  lemma FrameCounts(start: string, prompt: string, end: string, tag: string)
    requires IsTag(start) && IsTag(end) && IsTag(tag) && start != end && tag in [start, end] && '\n' !in tag
    ensures Count(start + "\n" + prompt + "\n" + end, tag) == 1 + Count(prompt, tag)
  {
    CountInTag(start, tag);
    CountInTag(end, tag);
    assert start + "\n" + prompt + "\n" + end == start + "\n" + (prompt + "\n" + end);
    CountAcrossLines(start, prompt + "\n" + end, tag);
    CountAcrossLines(prompt, end, tag);
  }

  lemma MarkersAreTags()
    ensures IsTag(START) && IsTag(END) && START != END && '\n' !in START && '\n' !in END
  {
    assert START[1] != END[1];
  }

  lemma GoalValuesArePlain(goal: Goal)
    ensures PlainValues(StepValues(goal)) && PlainValues(LimitValues(goal))
  {
    EscapeRoundTrip(goal.objective);
    assert forall n :: Unbracketed(Numeral(n));
  }

  /** For every goal, a framed prompt holds each marker exactly once when the template holds none. */
  lemma MarkersOccurOnce(template: string, goal: Goal, marker: string)
    requires TagsClosed(template, false) && Count(template, marker) == 0 && marker in ["<goal_context>", "</goal_context>"]
    ensures Count(GoalContext(Render(template, StepValues(goal))), marker) == 1
    ensures Count(GoalContext(Render(template, LimitValues(goal))), marker) == 1
  {
    MarkersAreTags();
    GoalValuesArePlain(goal);
    RenderKeepsTags(template, false, StepValues(goal), marker);
    RenderKeepsTags(template, false, LimitValues(goal), marker);
    FrameCounts(START, Render(template, StepValues(goal)), END, marker);
    FrameCounts(START, Render(template, LimitValues(goal)), END, marker);
  }

  // ---------------------------------------------------------------- the objective comes back

  /** What follows the first occurrence of a pattern. */
  function After(text: string, pattern: string): Option<string>
  {
    if pattern <= text then Some(text[|pattern|..])
    else if text == "" then None
    else After(text[1..], pattern)
  }

  /** What precedes the first occurrence of a pattern. */
  function Before(text: string, pattern: string): Option<string>
  {
    if pattern <= text then Some("")
    else if text == "" then None
    else
      var rest := Before(text[1..], pattern);
      if rest.None? then None else Some([text[0]] + rest.value)
  }

  /** Reads the objective from between the line of its tag and the line of its closing tag. */
  function Recover(text: string, tag: string, closing: string): Option<string>
  {
    var after := After(text, tag + "\n");
    if after.None? then None
    else
      var escaped := Before(after.value, "\n" + closing);
      if escaped.None? then None else Some(Unescape(escaped.value))
  }

  lemma {:induction false} CountAtEnd(x: string, tag: string)
    requires tag != ""
    ensures Count(x + tag, tag) >= 1
  {
    if x == "" {
      assert x + tag == tag;
    } else {
      assert (x + tag)[1..] == x[1..] + tag;
      CountAtEnd(x[1..], tag);
    }
  }

  lemma TagIsPrefix(x: string, tag: string, y: string)
    requires tag + "\n" <= x + tag + "\n" + y
    ensures tag <= x + tag
  {
    var text := x + tag + "\n" + y;
    assert text[..|tag| + 1][..|tag|] == tag;
    assert (x + tag)[..|tag|] == text[..|tag|];
  }

  lemma {:induction false} AfterOnlyTag(x: string, tag: string, y: string)
    requires tag != "" && Count(x + tag, tag) == 1
    ensures After(x + tag + "\n" + y, tag + "\n") == Some(y)
  {
    var text := x + tag + "\n" + y;
    if x == "" {
      assert text == tag + "\n" + y;
    } else {
      assert (x + tag)[1..] == x[1..] + tag && text[1..] == x[1..] + tag + "\n" + y;
      CountAtEnd(x[1..], tag);
      AfterOnlyTag(x[1..], tag, y);
      if tag + "\n" <= text {
        TagIsPrefix(x, tag, y);
      }
    }
  }

  lemma {:induction false} BeforeClosing(escaped: string, closing: string, z: string)
    requires '<' !in escaped && closing != "" && closing[0] == '<'
    ensures Before(escaped + "\n" + closing + z, "\n" + closing) == Some(escaped)
  {
    var text, pattern := escaped + "\n" + closing + z, "\n" + closing;
    if escaped == "" {
      assert text == pattern + z;
    } else {
      assert text[1..] == escaped[1..] + "\n" + closing + z;
      BeforeClosing(escaped[1..], closing, z);
      assert pattern[1] == '<';
      assert text[1] == if |escaped| > 1 then escaped[1] else '\n';
      assert |escaped| > 1 ==> escaped[1] in escaped;
      assert !(pattern <= text);
      assert escaped == [text[0]] + escaped[1..];
    }
  }

  lemma NoHole(t: string)
    requires t != "" && t[0] != '{'
    ensures Hole(t).None?
  {
  }

  lemma RenderChar(c: char, rest: string, values: map<string, string>)
    requires c != '{'
    ensures Render([c] + rest, values) == [c] + Render(rest, values)
  {
    NoHole([c] + rest);
    assert ([c] + rest)[1..] == rest;
  }

  lemma {:induction false} RenderPlain(plain: string, rest: string, values: map<string, string>)
    requires '{' !in plain
    ensures Render(plain + rest, values) == plain + Render(rest, values)
  {
    if plain == "" {
      EmptyAppend(rest);
      EmptyAppend(Render(rest, values));
    } else {
      RenderPlain(plain[1..], rest, values);
      RenderChar(plain[0], plain[1..] + rest, values);
      ConsAppend(plain, rest);
      ConsAppend(plain, Render(rest, values));
    }
  }

  lemma {:induction false} KeyStops(name: string, rest: string)
    requires (forall c :: c in name ==> KeyChar(c)) && rest != "" && !KeyChar(rest[0])
    ensures Key(name + rest) == name
  {
    if name == "" {
      assert name + rest == rest;
    } else {
      assert (name + rest)[1..] == name[1..] + rest && name[0] in name;
      KeyStops(name[1..], rest);
    }
  }

  lemma RenderHole(name: string, rest: string, values: map<string, string>)
    requires name != "" && (forall c :: c in name ==> KeyChar(c)) && name in values
    ensures Render("{{ " + name + " }}" + rest, values) == values[name] + Render(rest, values)
  {
    var t := "{{ " + name + " }}" + rest;
    assert t[..3] == "{{ " && t[3..] == name + (" }}" + rest);
    KeyStops(name, " }}" + rest);
    assert t[3 + |name|..] == " }}" + rest;
    assert (" }}" + rest)[..3] == " }}";
    assert t[|name| + 6..] == rest;
  }

  const OBJECTIVE := "objective"

  lemma RenderAround(before: string, name: string, after: string, tail: string, values: map<string, string>)
    requires '{' !in before && '{' !in after
    requires name != "" && (forall c :: c in name ==> KeyChar(c)) && name in values
    ensures Render(before + "{{ " + name + " }}" + after + tail, values) == before + values[name] + after + Render(tail, values)
  {
    RegroupHole(before, "{{ ", name, " }}", after, tail);
    RenderPlain(before, "{{ " + name + " }}" + (after + tail), values);
    RenderHole(name, after + tail, values);
    RenderPlain(after, tail, values);
    AppendAppend(before + values[name], after, Render(tail, values));
    AppendAppend(before, values[name], after + Render(tail, values));
  }

  lemma RegroupHole(before: string, open: string, name: string, close: string, after: string, tail: string)
    ensures before + open + name + close + after + tail == before + (open + name + close + (after + tail))
  {
    AppendAppend(before + open + name + close, after, tail);
    AppendAppend(before + open, name, close);
    AppendAppend(before, open, name + close);
    AppendAppend(open, name, close);
    AppendAppend(before, open + name + close, after + tail);
  }

  /** A framed text that holds an escaped objective between its two tags gives the objective back. */
  lemma FramedObjective(start: string, head: string, tag: string, objective: string, closing: string, z: string)
    requires IsTag(tag) && '\n' !in tag && IsTag(closing) && IsTag(start) && start != tag
    requires Count(head + tag, tag) == 1
    ensures Recover(start + "\n" + head + tag + "\n" + Escape(objective) + "\n" + closing + z, tag, closing) == Some(objective)
  {
    var x, escaped := start + "\n" + head, Escape(objective);
    assert x + tag == start + "\n" + (head + tag);
    CountInTag(start, tag);
    CountAcrossLines(start, head + tag, tag);
    var y := escaped + "\n" + closing + z;
    AfterOnlyTag(x, tag, y);
    assert start + "\n" + head + tag + "\n" + escaped + "\n" + closing + z == x + tag + "\n" + y;
    EscapeRoundTrip(objective);
    BeforeClosing(escaped, closing, z);
  }

  lemma Regroup(start: string, nl: string, head: string, tag: string, text: string, closing: string, rest: string, end: string)
    ensures start + nl + (head + tag + nl + text + (nl + closing) + rest) + nl + end ==
      start + nl + head + tag + nl + text + nl + closing + (rest + nl + end)
  {
    assert head + tag + nl + text + (nl + closing) + rest == head + tag + nl + text + nl + closing + rest;
  }

  lemma FramedRender(head: string, tag: string, closing: string, tail: string, values: map<string, string>, objective: string)
    requires IsTag(tag) && IsTag(closing) && '\n' !in tag && tag != START && Count(head + tag, tag) == 1
    requires '{' !in head + tag && '{' !in closing
    requires OBJECTIVE in values && values[OBJECTIVE] == Escape(objective)
    ensures var template := (head + tag + "\n") + "{{ " + OBJECTIVE + " }}" + ("\n" + closing) + tail;
      Recover(GoalContext(Render(template, values)), tag, closing) == Some(objective)
  {
    var before, after, rest := head + tag + "\n", "\n" + closing, Render(tail, values);
    RenderAround(before, OBJECTIVE, after, tail, values);
    MarkersAreTags();
    var z := rest + "\n" + END;
    FramedObjective(START, head, tag, objective, closing, z);
    Regroup(START, "\n", head, tag, Escape(objective), closing, rest, END);
  }

  /** Every framed prompt yields its goal's objective, whatever the objective holds. */
  lemma ObjectiveComesBack(head: string, tag: string, closing: string, tail: string, goal: Goal)
    requires IsTag(tag) && IsTag(closing) && '\n' !in tag && tag != START && Count(head + tag, tag) == 1
    requires '{' !in head + tag && '{' !in closing
    ensures var template := (head + tag + "\n") + "{{ " + OBJECTIVE + " }}" + ("\n" + closing) + tail;
      Recover(GoalContext(Render(template, StepValues(goal))), tag, closing) == Some(goal.objective) &&
      Recover(GoalContext(Render(template, LimitValues(goal))), tag, closing) == Some(goal.objective)
  {
    FramedRender(head, tag, closing, tail, StepValues(goal), goal.objective);
    FramedRender(head, tag, closing, tail, LimitValues(goal), goal.objective);
  }

  // ---------------------------------------------------------------- templates of the source's shape

  /** Text without brackets and braces leaves a tag as open or closed as it was. */
  lemma {:induction false} PlainKeepsTags(plain: string, rest: string, open: bool)
    requires '{' !in plain && Unbracketed(plain)
    ensures TagsClosed(plain + rest, open) == TagsClosed(rest, open)
  {
    if plain == "" {
      EmptyAppend(rest);
    } else {
      assert plain[0] in plain;
      ConsAppend(plain, rest);
      NoHole(plain + rest);
      assert (plain + rest)[1..] == plain[1..] + rest;
      PlainKeepsTags(plain[1..], rest, open);
    }
  }

  lemma BracketOpensOrCloses(c: char, rest: string, open: bool)
    requires c == '<' || c == '>'
    ensures TagsClosed([c] + rest, open) == TagsClosed(rest, c == '<')
  {
    NoHole([c] + rest);
    assert ([c] + rest)[1..] == rest;
  }

  /** A tag closes itself. */
  lemma TagIsClosed(tag: string, rest: string)
    requires IsTag(tag) && '{' !in tag
    ensures TagsClosed(tag + rest, false) == TagsClosed(rest, false)
  {
    var body := tag[1..|tag| - 1];
    assert tag + rest == ['<'] + (body + (['>'] + rest));
    assert forall c :: c in body ==> c in tag;
    BracketOpensOrCloses('<', body + (['>'] + rest), false);
    PlainKeepsTags(body, ['>'] + rest, true);
    BracketOpensOrCloses('>', rest, true);
  }

  lemma HoleIsClosed(name: string, rest: string)
    requires name != "" && forall c :: c in name ==> KeyChar(c)
    ensures TagsClosed("{{ " + name + " }}" + rest, false) == TagsClosed(rest, false)
  {
    HoleOf(name, rest);
    assert ("{{ " + name + " }}" + rest)[|name| + 6..] == rest;
  }

  lemma HoleOf(name: string, rest: string)
    requires name != "" && forall c :: c in name ==> KeyChar(c)
    ensures Hole("{{ " + name + " }}" + rest) == Some(name)
  {
    var t := "{{ " + name + " }}" + rest;
    assert t[..3] == "{{ " && t[3..] == name + (" }}" + rest);
    KeyStops(name, " }}" + rest);
    assert t[3 + |name|..] == " }}" + rest;
    assert (" }}" + rest)[..3] == " }}";
  }

  /** Text without brackets, holes or not, opens no tag. */
  lemma {:induction false} UnbracketedIsClosed(t: string)
    requires Unbracketed(t)
    ensures TagsClosed(t, false)
    decreases |t|
  {
    if t != "" {
      assert t[0] in t;
      if Hole(t).Some? {
        UnbracketedIsClosed(t[|Hole(t).value| + 6..]);
      } else {
        UnbracketedIsClosed(t[1..]);
      }
    }
  }

  /** A tag in front adds itself and nothing else. */
  lemma CountBehindTag(tag: string, rest: string, marker: string)
    requires IsTag(tag) && IsTag(marker)
    ensures Count(tag + rest, marker) == (if tag == marker then 1 else 0) + Count(rest, marker)
  {
    var text, tail := tag + rest, tag[1..];
    assert text[1..] == tail + rest;
    assert tail == tag[1..|tag| - 1] + ">";
    CountSkips(tail, rest, marker);
    TagPrefixes(tag, rest, marker);
  }

  /** A tag is a prefix of text that starts with a tag only when the two are the same. */
  lemma TagPrefixes(tag: string, rest: string, marker: string)
    requires IsTag(tag) && IsTag(marker)
    ensures marker <= tag + rest <==> marker == tag
  {
    var text := tag + rest;
    if marker <= text {
      assert text[|tag| - 1] == '>' && text[|marker| - 1] == '>';
      assert |marker| == |tag|;
      assert text[..|tag|] == tag;
    }
  }

  /** Text, the objective between its tags on a line of its own, and text with further holes. */
  function Template(head: string, tag: string, closing: string, tail: string): string
  {
    (head + tag + "\n") + "{{ " + OBJECTIVE + " }}" + ("\n" + closing) + tail
  }

  predicate SourceShape(head: string, tag: string, closing: string, tail: string)
  {
    Unbracketed(head) && '{' !in head && Unbracketed(tail) && IsTag(tag) && IsTag(closing) &&
    '{' !in tag && '\n' !in tag && '{' !in closing
  }

  lemma RegroupTemplate(head: string, tag: string, closing: string, tail: string)
    ensures Template(head, tag, closing, tail) ==
      head + (tag + ("\n" + ("{{ " + OBJECTIVE + " }}" + ("\n" + (closing + tail)))))
  {
    RegroupHole(head + tag + "\n", "{{ ", OBJECTIVE, " }}", "\n" + closing, tail);
    AppendAppend("\n", closing, tail);
    var rest := "{{ " + OBJECTIVE + " }}" + ("\n" + (closing + tail));
    AppendAppend(head + tag, "\n", rest);
    AppendAppend(head, tag, "\n" + rest);
  }

  lemma TemplateIsClosed(head: string, tag: string, closing: string, tail: string)
    requires SourceShape(head, tag, closing, tail)
    ensures TagsClosed(Template(head, tag, closing, tail), false)
  {
    RegroupTemplate(head, tag, closing, tail);
    var end := closing + tail;
    var middle := "{{ " + OBJECTIVE + " }}" + ("\n" + end);
    PlainKeepsTags(head, tag + ("\n" + middle), false);
    TagIsClosed(tag, "\n" + middle);
    PlainKeepsTags("\n", middle, false);
    HoleIsClosed(OBJECTIVE, "\n" + end);
    PlainKeepsTags("\n", end, false);
    TagIsClosed(closing, tail);
    UnbracketedIsClosed(tail);
  }

  lemma TemplateHasNoMarker(head: string, tag: string, closing: string, tail: string, marker: string)
    requires SourceShape(head, tag, closing, tail) && IsTag(marker) && marker != tag && marker != closing
    ensures Count(Template(head, tag, closing, tail), marker) == 0
  {
    RegroupTemplate(head, tag, closing, tail);
    var end := closing + tail;
    var middle := "{{ " + OBJECTIVE + " }}" + ("\n" + end);
    CountSkips(head, tag + ("\n" + middle), marker);
    CountBehindTag(tag, "\n" + middle, marker);
    CountSkips("\n", middle, marker);
    CountSkips("{{ " + OBJECTIVE + " }}", "\n" + end, marker);
    CountSkips("\n", end, marker);
    CountBehindTag(closing, tail, marker);
    CountSkips(tail, "", marker);
    EmptyAppend(tail);
  }

  /**
   * A template made of bracket-free text around one tagged objective, as the three of the source are: for every goal
   * the framed prompt holds each marker exactly once and gives the objective back.
   */
  lemma PromptIsFramed(head: string, tag: string, closing: string, tail: string, goal: Goal, marker: string)
    requires SourceShape(head, tag, closing, tail) && marker in ["<goal_context>", "</goal_context>"]
    requires tag != START && tag != END && closing != START && closing != END
    ensures var template := Template(head, tag, closing, tail);
      Count(GoalContext(Render(template, StepValues(goal))), marker) == 1 &&
      Count(GoalContext(Render(template, LimitValues(goal))), marker) == 1 &&
      Recover(GoalContext(Render(template, StepValues(goal))), tag, closing) == Some(goal.objective) &&
      Recover(GoalContext(Render(template, LimitValues(goal))), tag, closing) == Some(goal.objective)
  {
    MarkersAreTags();
    TemplateIsClosed(head, tag, closing, tail);
    TemplateHasNoMarker(head, tag, closing, tail, marker);
    MarkersOccurOnce(Template(head, tag, closing, tail), goal, marker);
    CountSkips(head, tag, tag);
    CountInTag(tag, tag);
    ObjectiveComesBack(head, tag, closing, tail, goal);
  }

  // ---------------------------------------------------------------- what the holes say

  lemma HoleAlone(name: string, values: map<string, string>)
    requires name != "" && (forall c :: c in name ==> 'a' <= c <= 'z' || c == '_') && name in values
    ensures Render("{{ " + name + " }}", values) == values[name]
  {
    RenderHole(name, "", values);
    EmptyAppend("{{ " + name + " }}");
    EmptyAppend(values[name]);
  }

  /** A hole without a value, and text without holes, come out empty and as they are. */
  lemma OtherText(name: string, plain: string, values: map<string, string>)
    requires name != "" && (forall c :: c in name ==> 'a' <= c <= 'z' || c == '_') && name !in values && '{' !in plain
    ensures Render("{{ " + name + " }}", values) == "" && Render(plain, values) == plain
  {
    HoleOf(name, "");
    EmptyAppend("{{ " + name + " }}");
    assert ("{{ " + name + " }}")[|name| + 6..] == "";
    RenderPlain(plain, "", values);
    EmptyAppend(plain);
  }

  /** Braces around anything but small letters and underscores are no hole and stay. */
  lemma OtherBracesStay(name: string, values: map<string, string>)
    requires '{' !in name && ' ' !in name && (name == "" || exists c :: c in name && !('a' <= c <= 'z' || c == '_'))
    ensures Render("{{ " + name + " }}", values) == "{{ " + name + " }}"
  {
    var t := "{{ " + name + " }}";
    NoKeyNoHole(name);
    assert t == "{{" + (" " + name + " }}");
    RenderBraces(" " + name + " }}", values);
    RenderPlain(" " + name + " }}", "", values);
    EmptyAppend(" " + name + " }}");
  }

  lemma NoKeyNoHole(name: string)
    requires ' ' !in name && (name == "" || exists c :: c in name && !KeyChar(c))
    ensures Hole("{{ " + name + " }}").None?
  {
    var t := "{{ " + name + " }}";
    assert t[3..] == name + " }}";
    KeyStopsInside(name, " }}");
  }

  lemma RenderBrace(rest: string, values: map<string, string>)
    requires rest == "" || rest[0] != '{'
    ensures Render("{" + rest, values) == "{" + Render(rest, values)
  {
    var t := "{" + rest;
    assert t[1..] == rest;
    assert Hole(t).None? by {
      if |t| > 1 {
        assert t[1] == rest[0];
      }
    }
  }

  lemma RenderBraces(rest: string, values: map<string, string>)
    requires Hole("{{" + rest).None? && (rest == "" || rest[0] != '{')
    ensures Render("{{" + rest, values) == "{{" + Render(rest, values)
  {
    var t := "{{" + rest;
    RenderBrace(rest, values);
    assert t[1..] == "{" + rest;
  }

  lemma {:induction false} KeyStopsInside(name: string, rest: string)
    requires ' ' !in name && (name == "" || exists c :: c in name && !KeyChar(c)) && (rest != "" ==> !KeyChar(rest[0]))
    ensures var key := Key(name + rest);
      if name == "" then key == "" else |key| < |name| && (name + rest)[|key|] != ' '
  {
    var t := name + rest;
    if name != "" && KeyChar(name[0]) {
      var c :| c in name && !KeyChar(c);
      assert c in name[1..];
      assert t[1..] == name[1..] + rest;
      KeyStopsInside(name[1..], rest);
    } else if name != "" {
      assert name[0] in name;
    }
  }

  /** In a continuation or an edit prompt the holes give the tokens used and the budget. */
  lemma StepHoles(goal: Goal)
    ensures Render("{{ " + "tokens_used" + " }}", StepValues(goal)) == Numeral(goal.tokensUsed)
    ensures Render("{{ " + "token_budget" + " }}", StepValues(goal)) ==
      match goal.tokenBudget case None => "none" case Some(n) => Numeral(n)
  {
    HoleAlone("tokens_used", StepValues(goal));
    HoleAlone("token_budget", StepValues(goal));
  }

  /** They also give what is left of the budget. */
  lemma RemainingHole(goal: Goal)
    ensures Render("{{ " + "remaining_tokens" + " }}", StepValues(goal)) ==
      match goal.tokenBudget case None => "unbounded" case Some(n) => Numeral(if goal.tokensUsed < n then n - goal.tokensUsed else 0)
  {
    HoleAlone("remaining_tokens", StepValues(goal));
  }

  /** In the budget prompt they give the tokens used and the budget. */
  lemma LimitHoles(goal: Goal)
    ensures Render("{{ " + "tokens_used" + " }}", LimitValues(goal)) == Numeral(goal.tokensUsed)
    ensures Render("{{ " + "token_budget" + " }}", LimitValues(goal)) ==
      match goal.tokenBudget case None => "none" case Some(n) => Numeral(n)
  {
    HoleAlone("tokens_used", LimitValues(goal));
    HoleAlone("token_budget", LimitValues(goal));
  }

  /** And the time used. */
  lemma TimeHole(goal: Goal)
    ensures Render("{{ " + "time_used_seconds" + " }}", LimitValues(goal)) == Numeral(goal.timeUsedSeconds)
  {
    HoleAlone("time_used_seconds", LimitValues(goal));
  }
}
