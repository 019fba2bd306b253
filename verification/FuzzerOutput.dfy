// Reading a violation back out of a fuzzer's log. The patterns searched for are fixed opening words, then
// capture groups with fixed words between them, such as
//
//   invariant `([^`]+)` violated at step (\d+): (.+)

module FuzzerOutput {
  import opened Prelude
  import opened Decimal
  import opened Harness
  import opened Utf8

  // The character classes of the groups.
  datatype Class = NotBacktick | Digit | NotNewline | NotWhitespace {
    predicate Has(c: char) {
      match this
      case NotBacktick => c != '`'
      case Digit => IsDigit(c)
      case NotNewline => c != '\n'
      case NotWhitespace => !IsWhitespace(c)
    }
  }

  // A group of one or more characters of a class, and the words that close it.
  datatype Group = Group(class_: Class, closing: string)

  datatype Pattern = Pattern(opening: string, groups: seq<Group>)

  const VIOLATION_RE: Pattern :=
    Pattern("invariant `", [Group(NotBacktick, "` violated at step "), Group(Digit, ": "), Group(NotNewline, "")])

  const ARTIFACT_RE: Pattern := Pattern("Test unit written to ", [Group(NotWhitespace, "")])

  predicate StartsAt(text: string, i: nat, word: string)
    decreases |word|
  {
    if word == [] then i <= |text| else i < |text| && text[i] == word[0] && StartsAt(text, i + 1, word[1..])
  }

  // Where the longest run of characters of a class that starts at `i` ends.
  function RunEnd(text: string, i: nat, class_: Class): (end: nat)
    requires i <= |text|
    ensures i <= end <= |text|
    ensures forall k :: i <= k < end ==> class_.Has(text[k])
    ensures end < |text| ==> !class_.Has(text[end])
    decreases |text| - i
  {
    if i < |text| && class_.Has(text[i]) then RunEnd(text, i + 1, class_) else i
  }

  // The end of a group: the whole non-empty run from `i`, if the closing words follow it. The character
  // after a run is outside its class, so there is nothing to backtrack into.
  function GroupEnd(text: string, i: nat, group: Group): (end: Option<nat>)
    ensures end.Some? ==> i < end.value <= |text|
  {
    if i > |text| then None
    else
      var end := RunEnd(text, i, group.class_);
      if end > i && StartsAt(text, end, group.closing) then Some(end) else None
  }

  // The captures of the groups, one after the other from `i`.
  function MatchGroups(groups: seq<Group>, text: string, i: nat): (captures: Option<seq<string>>)
    ensures captures.Some? ==> |captures.value| == |groups|
    decreases |groups|
  {
    if groups == [] then Some([])
    else
      match GroupEnd(text, i, groups[0])
      case None => None
      case Some(end) =>
        match MatchGroups(groups[1..], text, end + |groups[0].closing|)
        case None => None
        case Some(rest) => Some([text[i..end]] + rest)
  }

  // The match that starts at `i`, if there is one.
  function MatchAt(re: Pattern, text: string, i: nat): (captures: Option<seq<string>>)
    ensures captures.Some? ==> |captures.value| == |re.groups|
  {
    if StartsAt(text, i, re.opening) then MatchGroups(re.groups, text, i + |re.opening|) else None
  }

  // The first match that starts at `i` or later.
  function FirstMatch(re: Pattern, text: string, i: nat): (captures: Option<seq<string>>)
    requires i <= |text|
    ensures captures.Some? ==> |captures.value| == |re.groups|
    decreases |text| - i
  {
    if MatchAt(re, text, i).Some? then MatchAt(re, text, i)
    else if i == |text| then None
    else FirstMatch(re, text, i + 1)
  }

  datatype ParsedViolation = ParsedViolation(invariantName: string, stepIndex: int, message: string)

  // A step number that does not fit i32 loses the whole violation.
  function ParseViolation(text: string): Option<ParsedViolation> {
    match FirstMatch(VIOLATION_RE, text, 0)
    case None => None
    case Some(captures) =>
      if !AllDigits(captures[1]) || ReadNat(captures[1]) > I32_MAX then None
      else Some(ParsedViolation(captures[0], ReadNat(captures[1]), Trim(captures[2])))
  }

  function ParseArtifactPath(text: string): Option<string> {
    match FirstMatch(ARTIFACT_RE, text, 0)
    case None => None
    case Some(captures) => Some(captures[0])
  }

  predicate Crashed(exitCode: Option<int>, timedOut: bool) {
    !timedOut && exitCode.Some? && exitCode.value != 0
  }

  // The finding of `parse`.
  function ParsedFinding(text: string, exitCode: Option<int>, timedOut: bool): Option<ParsedViolation> {
    if !Crashed(exitCode, timedOut) then None
    else
      match ParseViolation(text)
      case Some(violation) => Some(violation)
      case None => Some(ParsedViolation("undeclared_panic", 0, Tail(text, 2000)))
  }

  // ----- the matcher is the pattern -----

  ghost predicate InClass(word: string, class_: Class) {
    forall k :: 0 <= k < |word| ==> class_.Has(word[k])
  }

  // What stands after a group: its closing words or, if it has none, no further character of its class.
  ghost predicate Closed(group: Group, text: string, i: nat) {
    StartsAt(text, i, group.closing) && (group.closing == [] && i < |text| ==> !group.class_.Has(text[i]))
  }

  // The groups read off as a grammar: from `i` on stand the values, each of its class and closed.
  ghost predicate Spells(groups: seq<Group>, values: seq<string>, text: string, i: nat)
    decreases |groups|
  {
    if groups == [] then values == []
    else
      && values != [] && StartsAt(text, i, values[0]) && InClass(values[0], groups[0].class_)
      && Closed(groups[0], text, i + |values[0]|)
      && Spells(groups[1..], values[1..], text, i + |values[0]| + |groups[0].closing|)
  }

  // Closing words that begin outside the class of their group.
  predicate Deterministic(groups: seq<Group>) {
    forall g :: 0 <= g < |groups| ==> groups[g].closing != [] ==> !groups[g].class_.Has(groups[g].closing[0])
  }

  lemma {:induction false} StartsWithWord(text: string, i: nat, word: string)
    ensures StartsAt(text, i, word) <==> i + |word| <= |text| && text[i..i + |word|] == word
    decreases |word|
  {
    if word != [] && i < |text| && text[i] == word[0] {
      StartsWithWord(text, i + 1, word[1..]);
      if i + |word| <= |text| {
        assert text[i..i + |word|] == [text[i]] + text[i + 1..i + |word|];
      }
    }
  }

  lemma StartsWithChars(text: string, i: nat, word: string)
    requires StartsAt(text, i, word)
    ensures i + |word| <= |text| && forall k :: i <= k < i + |word| ==> text[k] == word[k - i]
  {
    StartsWithWord(text, i, word);
    assert forall k :: i <= k < i + |word| ==> text[k] == text[i..i + |word|][k - i];
  }

  lemma {:induction false} SplitStart(text: string, i: nat, first: string, rest: string)
    ensures StartsAt(text, i, first + rest) <==> StartsAt(text, i, first) && StartsAt(text, i + |first|, rest)
    decreases |first|
  {
    if first == [] {
      assert first + rest == rest;
    } else {
      assert (first + rest)[1..] == first[1..] + rest;
      SplitStart(text, i + 1, first[1..], rest);
    }
  }

  // A closed value is the whole run of its class.
  lemma GroupIsTheWord(text: string, i: nat, word: string, group: Group)
    requires StartsAt(text, i, word) && InClass(word, group.class_) && Closed(group, text, i + |word|)
    requires group.closing != [] ==> !group.class_.Has(group.closing[0])
    ensures i + |word| <= |text| && RunEnd(text, i, group.class_) == i + |word|
    ensures GroupEnd(text, i, group) == (if word == [] then None else Some(i + |word|))
    ensures text[i..i + |word|] == word
  {
    StartsWithChars(text, i, word);
    StartsWithWord(text, i, word);
  }

  lemma GroupIsSpelled(text: string, i: nat, group: Group)
    requires GroupEnd(text, i, group).Some?
    ensures var end := GroupEnd(text, i, group).value;
            var word := text[i..end];
            word != [] && StartsAt(text, i, word) && InClass(word, group.class_) && Closed(group, text, end)
  {
    var end := GroupEnd(text, i, group).value;
    var word := text[i..end];
    StartsWithWord(text, i, word);
    forall k | 0 <= k < |word| ensures group.class_.Has(word[k]) {
      assert word[k] == text[i + k];
    }
  }

  ghost predicate NoneEmpty(values: seq<string>) {
    forall k :: 0 <= k < |values| ==> values[k] != []
  }

  lemma {:induction false} SpelledIsMatched(groups: seq<Group>, values: seq<string>, text: string, i: nat)
    requires Deterministic(groups) && Spells(groups, values, text, i)
    ensures MatchGroups(groups, text, i) == if NoneEmpty(values) then Some(values) else None
    decreases |groups|
  {
    if groups != [] {
      var word := values[0];
      GroupIsTheWord(text, i, word, groups[0]);
      SpelledIsMatched(groups[1..], values[1..], text, i + |word| + |groups[0].closing|);
      assert values == [word] + values[1..];
      assert NoneEmpty(values) <==> word != [] && NoneEmpty(values[1..]);
    }
  }

  lemma {:induction false} MatchedIsSpelled(groups: seq<Group>, text: string, i: nat)
    requires MatchGroups(groups, text, i).Some?
    ensures var values := MatchGroups(groups, text, i).value;
            Spells(groups, values, text, i) && NoneEmpty(values)
    decreases |groups|
  {
    if groups != [] {
      GroupIsSpelled(text, i, groups[0]);
      var end := GroupEnd(text, i, groups[0]).value;
      var next := end + |groups[0].closing|;
      MatchedIsSpelled(groups[1..], text, next);
      var rest := MatchGroups(groups[1..], text, next).value;
      assert ([text[i..end]] + rest)[1..] == rest;
    }
  }

  // The matcher finds exactly what the pattern describes, and never has a choice.
  lemma MatchIsSpelling(re: Pattern, text: string, i: nat, values: seq<string>)
    requires Deterministic(re.groups)
    ensures MatchAt(re, text, i) == Some(values) <==>
            StartsAt(text, i, re.opening) && Spells(re.groups, values, text, i + |re.opening|) && NoneEmpty(values)
  {
    var start := i + |re.opening|;
    if Spells(re.groups, values, text, start) {
      SpelledIsMatched(re.groups, values, text, start);
    } else if MatchGroups(re.groups, text, start) == Some(values) {
      MatchedIsSpelled(re.groups, text, start);
    }
  }

  // The search returns the match with the smallest start.
  lemma {:induction false} FirstMatchIsLeftmost(re: Pattern, text: string, i: nat, start: nat)
    requires i <= start <= |text| && MatchAt(re, text, start).Some?
    requires forall k: nat :: i <= k < start ==> MatchAt(re, text, k).None?
    ensures FirstMatch(re, text, i) == MatchAt(re, text, start)
    decreases start - i
  {
    if i < start {
      FirstMatchIsLeftmost(re, text, i + 1, start);
    }
  }

  lemma {:induction false} NoMatchMeansNone(re: Pattern, text: string, i: nat, end: nat)
    requires i <= end <= |text| && forall k: nat :: i <= k < end ==> MatchAt(re, text, k).None?
    ensures FirstMatch(re, text, i) == FirstMatch(re, text, end)
    decreases end - i
  {
    if i < end {
      NoMatchMeansNone(re, text, i + 1, end);
    }
  }

  // ----- a pattern written out inside a text -----

  // The values with the closing words of their groups after them.
  function Written(groups: seq<Group>, values: seq<string>): string
    requires |groups| == |values|
  {
    if groups == [] then "" else values[0] + groups[0].closing + Written(groups[1..], values[1..])
  }

  // What follows the values in the text: nothing, or a character outside the class of an unclosed group.
  ghost predicate Ends(groups: seq<Group>, text: string, end: nat) {
    forall g :: 0 <= g < |groups| && groups[g].closing == [] ==>
      g == |groups| - 1 && (end < |text| ==> !groups[g].class_.Has(text[end]))
  }

  lemma {:induction false} WrittenSpells(groups: seq<Group>, values: seq<string>, text: string, i: nat)
    requires |groups| == |values| && StartsAt(text, i, Written(groups, values))
    requires forall g :: 0 <= g < |groups| ==> InClass(values[g], groups[g].class_)
    requires Ends(groups, text, i + |Written(groups, values)|)
    ensures Spells(groups, values, text, i)
    decreases |groups|
  {
    if groups != [] {
      var first, closing, rest := values[0], groups[0].closing, Written(groups[1..], values[1..]);
      SplitStart(text, i, first + closing, rest);
      SplitStart(text, i, first, closing);
      WrittenSpells(groups[1..], values[1..], text, i + |first| + |closing|);
    }
  }

  predicate Mentions(text: string, word: string) {
    exists i: nat :: i <= |text| && StartsAt(text, i, word)
  }

  // A word whose first or last character stands nowhere else in it, so that occurrences cannot overlap.
  predicate Unbordered(word: string) {
    word != [] && (word[0] !in word[1..] || word[|word| - 1] !in word[..|word| - 1])
  }

  lemma OccurrencesDoNotOverlap(text: string, i: nat, j: nat, word: string)
    requires StartsAt(text, i, word) && StartsAt(text, j, word) && i < j && Unbordered(word)
    ensures i + |word| <= j
  {
    StartsWithChars(text, i, word);
    StartsWithChars(text, j, word);
    if word[0] !in word[1..] {
      assert forall k :: i < k < i + |word| ==> text[k] == word[1..][k - i - 1] != word[0];
    } else {
      assert text[i + |word| - 1] == word[|word| - 1];
      assert forall k :: j <= k < j + |word| - 1 ==> text[k] == word[..|word| - 1][k - j] != word[|word| - 1];
    }
  }

  lemma StartsInPrefix(text: string, p: nat, k: nat, word: string)
    requires p <= |text| && StartsAt(text, k, word) && k + |word| <= p
    ensures StartsAt(text[..p], k, word)
  {
    StartsWithWord(text, k, word);
    StartsWithWord(text[..p], k, word);
    assert text[..p][k..k + |word|] == text[k..k + |word|];
  }

  // An occurrence of the opening words after a prefix without them is the first one.
  lemma NoOpeningBefore(text: string, p: nat, opening: string, k: nat)
    requires k < p <= |text| && Unbordered(opening) && !Mentions(text[..p], opening) && StartsAt(text, p, opening)
    ensures !StartsAt(text, k, opening)
  {
    if StartsAt(text, k, opening) {
      OccurrencesDoNotOverlap(text, k, p, opening);
      StartsInPrefix(text, p, k, opening);
    }
  }

  // At `p` stand the opening words and values of the right classes, and what follows ends the last one.
  ghost predicate WrittenAt(re: Pattern, text: string, p: nat, values: seq<string>) {
    && |re.groups| == |values| && Deterministic(re.groups)
    && (forall g :: 0 <= g < |values| ==> InClass(values[g], re.groups[g].class_))
    && StartsAt(text, p, re.opening) && StartsAt(text, p + |re.opening|, Written(re.groups, values))
    && Ends(re.groups, text, p + |re.opening| + |Written(re.groups, values)|)
  }

  lemma WrittenMatches(re: Pattern, text: string, p: nat, values: seq<string>)
    requires WrittenAt(re, text, p, values)
    ensures MatchAt(re, text, p) == if NoneEmpty(values) then Some(values) else None
  {
    WrittenSpells(re.groups, values, text, p + |re.opening|);
    SpelledIsMatched(re.groups, values, text, p + |re.opening|);
  }

  // Values written out after a prefix without the opening words are what the search finds, whatever the
  // rest of the text says; if one of them is empty the search passes over them.
  lemma {:induction false} WrittenIsFound(re: Pattern, prefix: string, text: string, values: seq<string>)
    requires |prefix| <= |text| && text[..|prefix|] == prefix
    requires WrittenAt(re, text, |prefix|, values) && Unbordered(re.opening) && !Mentions(prefix, re.opening)
    ensures FirstMatch(re, text, 0)
            == if NoneEmpty(values) then Some(values)
               else if prefix == text then None
               else FirstMatch(re, text, |prefix| + 1)
  {
    var p := |prefix|;
    WrittenMatches(re, text, p, values);
    forall k: nat | 0 <= k < p ensures MatchAt(re, text, k).None? {
      NoOpeningBefore(text, p, re.opening, k);
    }
    if NoneEmpty(values) {
      FirstMatchIsLeftmost(re, text, 0, p);
    } else {
      NoMatchMeansNone(re, text, 0, p);
    }
  }

  lemma WordInContext(prefix: string, word: string, after: string)
    ensures var text := prefix + word + after;
            StartsAt(text, |prefix|, word) && text[..|prefix|] == prefix && text[|prefix| + |word|..] == after
  {
    var text := prefix + word + after;
    StartsWithWord(text, |prefix|, word);
    assert text[|prefix|..|prefix| + |word|] == word;
  }

  // ----- printing a violation, then parsing the log -----

  // `Display` for a violation.
  function Print(v: Violation): string {
    "invariant `" + v.invariantName + "` violated at step " + ShowNat(v.stepIndex) + ": " + v.message
  }

  function FirstLine(text: string): string {
    text[..RunEnd(text, 0, NotNewline)]
  }

  // A violation that the pattern can recognise once printed.
  predicate Recognisable(v: Violation) {
    v.invariantName != [] && '`' !in v.invariantName && FirstLine(v.message) != []
  }

  // A log in which `v` was printed.
  function InLog(prefix: string, v: Violation, suffix: string): string {
    prefix + Print(v) + "\n" + suffix
  }

  function PrintedValues(v: Violation): seq<string> {
    [v.invariantName, ShowNat(v.stepIndex), FirstLine(v.message)]
  }

  function AfterFirstLine(v: Violation, suffix: string): string {
    v.message[|FirstLine(v.message)|..] + "\n" + suffix
  }

  lemma WrittenThree(a: Group, b: Group, c: Group, x: string, y: string, z: string)
    ensures Written([a, b, c], [x, y, z]) == x + a.closing + (y + b.closing + (z + c.closing))
  {
    assert [a, b, c][1..] == [b, c] && [x, y, z][1..] == [y, z];
    assert [b, c][1..] == [c] && [y, z][1..] == [z];
    assert Written([c], [z]) == z + c.closing;
  }

  lemma Regrouped(prefix: string, o: string, x: string, a: string, y: string, b: string, z: string, rest: string,
                  after: string)
    ensures prefix + (o + x + a + y + b + (z + rest)) + after
      == prefix + (o + (x + a + (y + b + (z + "")))) + (rest + after)
  {
  }

  lemma PrintedAsWritten(prefix: string, v: Violation, suffix: string)
    ensures InLog(prefix, v, suffix)
            == prefix + (VIOLATION_RE.opening + Written(VIOLATION_RE.groups, PrintedValues(v)))
              + AfterFirstLine(v, suffix)
  {
    var g := VIOLATION_RE.groups;
    var line, step := FirstLine(v.message), ShowNat(v.stepIndex);
    var rest := v.message[|line|..];
    WrittenThree(g[0], g[1], g[2], v.invariantName, step, line);
    assert v.message == line + rest;
    Regrouped(prefix, VIOLATION_RE.opening, v.invariantName, g[0].closing, step, g[1].closing, line, rest,
              "\n" + suffix);
    AfterNewline(prefix + Print(v), suffix);
    AfterNewline(rest, suffix);
  }

  lemma AfterNewline(text: string, suffix: string)
    ensures text + "\n" + suffix == text + ("\n" + suffix)
  {
  }

  lemma PrintedStands(prefix: string, v: Violation, suffix: string)
    ensures var text := InLog(prefix, v, suffix);
            var end := |prefix| + |VIOLATION_RE.opening| + |Written(VIOLATION_RE.groups, PrintedValues(v))|;
            && StartsAt(text, |prefix|, VIOLATION_RE.opening)
            && StartsAt(text, |prefix| + |VIOLATION_RE.opening|, Written(VIOLATION_RE.groups, PrintedValues(v)))
            && text[..|prefix|] == prefix && end < |text| && text[end] == '\n'
  {
    var opening, written := VIOLATION_RE.opening, Written(VIOLATION_RE.groups, PrintedValues(v));
    var after := AfterFirstLine(v, suffix);
    var text := InLog(prefix, v, suffix);
    PrintedAsWritten(prefix, v, suffix);
    WordInContext(prefix, opening + written, after);
    SplitStart(text, |prefix|, opening, written);
    assert text[|prefix| + |opening + written|..][0] == after[0] == '\n';
  }

  lemma PrintedClasses(v: Violation)
    requires '`' !in v.invariantName
    ensures forall g :: 0 <= g < 3 ==> InClass(PrintedValues(v)[g], VIOLATION_RE.groups[g].class_)
  {
    var values := PrintedValues(v);
    ShowThenRead(v.stepIndex);
    assert InClass(values[0], NotBacktick);
    assert InClass(values[1], Digit);
    assert InClass(values[2], NotNewline);
  }

  lemma ViolationGroups(text: string, end: nat)
    requires end < |text| ==> text[end] == '\n'
    ensures |VIOLATION_RE.groups| == 3 && Deterministic(VIOLATION_RE.groups) && Ends(VIOLATION_RE.groups, text, end)
  {
  }

  lemma PrintedIsWritten(prefix: string, v: Violation, suffix: string)
    requires '`' !in v.invariantName
    ensures var text := InLog(prefix, v, suffix);
            WrittenAt(VIOLATION_RE, text, |prefix|, PrintedValues(v)) && |prefix| < |text| && text[..|prefix|] == prefix
  {
    PrintedClasses(v);
    PrintedStands(prefix, v, suffix);
    var written := Written(VIOLATION_RE.groups, PrintedValues(v));
    ViolationGroups(InLog(prefix, v, suffix), |prefix| + |VIOLATION_RE.opening| + |written|);
  }

  lemma RecognisableMeansNoneEmpty(v: Violation)
    requires '`' !in v.invariantName
    ensures NoneEmpty(PrintedValues(v)) <==> Recognisable(v)
  {
    var values := PrintedValues(v);
    ShowThenRead(v.stepIndex);
    assert NoneEmpty(values) <==> values[0] != [] && values[1] != [] && values[2] != [];
  }

  lemma ViolationOpening()
    ensures Unbordered(VIOLATION_RE.opening)
  {
    var opening := VIOLATION_RE.opening;
    assert forall k :: 0 <= k < 10 ==> opening[..10][k] == opening[k] != opening[10];
  }

  lemma ViolationIsFound(prefix: string, text: string, v: Violation)
    requires |prefix| < |text| && text[..|prefix|] == prefix && !Mentions(prefix, VIOLATION_RE.opening)
    requires '`' !in v.invariantName && WrittenAt(VIOLATION_RE, text, |prefix|, PrintedValues(v))
    ensures FirstMatch(VIOLATION_RE, text, 0)
            == if Recognisable(v) then Some(PrintedValues(v)) else FirstMatch(VIOLATION_RE, text, |prefix| + 1)
  {
    ViolationOpening();
    RecognisableMeansNoneEmpty(v);
    WrittenIsFound(VIOLATION_RE, prefix, text, PrintedValues(v));
  }

  // The search finds a recognisable violation and passes over one with an empty name or first line.
  lemma PrintedIsFound(prefix: string, v: Violation, suffix: string)
    requires !Mentions(prefix, VIOLATION_RE.opening) && '`' !in v.invariantName
    ensures var text := InLog(prefix, v, suffix);
            FirstMatch(VIOLATION_RE, text, 0)
            == if Recognisable(v) then Some(PrintedValues(v)) else FirstMatch(VIOLATION_RE, text, |prefix| + 1)
  {
    PrintedIsWritten(prefix, v, suffix);
    ViolationIsFound(prefix, InLog(prefix, v, suffix), v);
  }

  // The round trip. After any prefix that does not say "invariant `", and before anything at all, a
  // recognisable violation is parsed back to its name, its step and its trimmed first line, whatever its
  // message goes on to say; only a step number beyond i32 is lost.
  lemma {:induction false} PrintThenParse(prefix: string, v: Violation, suffix: string)
    requires Recognisable(v) && !Mentions(prefix, VIOLATION_RE.opening)
    ensures ParseViolation(InLog(prefix, v, suffix))
            == if v.stepIndex <= I32_MAX
               then Some(ParsedViolation(v.invariantName, v.stepIndex, Trim(FirstLine(v.message))))
               else None
  {
    PrintedIsFound(prefix, v, suffix);
    ShowThenRead(v.stepIndex);
  }

  lemma MatchedFirstInClass(groups: seq<Group>, text: string, i: nat)
    requires groups != [] && MatchGroups(groups, text, i).Some?
    ensures InClass(MatchGroups(groups, text, i).value[0], groups[0].class_)
  {
    MatchedIsSpelled(groups, text, i);
  }

  lemma BacktickIsNotReadBack(text: string, i: nat, v: Violation)
    requires '`' in v.invariantName
    ensures MatchAt(VIOLATION_RE, text, i) != Some(PrintedValues(v))
  {
    var captures := MatchAt(VIOLATION_RE, text, i);
    if captures.Some? {
      MatchedFirstInClass(VIOLATION_RE.groups, text, i + |VIOLATION_RE.opening|);
      assert '`' !in captures.value[0];
    }
  }

  // Recognisable is exactly what it takes: at its own position in any log a violation is read back, name,
  // digits and first line, if and only if it is recognisable.
  lemma ReadBackIffRecognisable(prefix: string, v: Violation, suffix: string)
    ensures MatchAt(VIOLATION_RE, InLog(prefix, v, suffix), |prefix|) == Some(PrintedValues(v)) <==> Recognisable(v)
  {
    var text := InLog(prefix, v, suffix);
    if '`' !in v.invariantName {
      RecognisableMeansNoneEmpty(v);
      PrintedIsWritten(prefix, v, suffix);
      WrittenMatches(VIOLATION_RE, text, |prefix|, PrintedValues(v));
    } else {
      BacktickIsNotReadBack(text, |prefix|, v);
    }
  }

  // The finding of a crashed run that printed a recognisable violation, and of one that matched nothing.
  lemma CrashedRunFinding(prefix: string, v: Violation, suffix: string, exitCode: Option<int>, timedOut: bool)
    requires Recognisable(v) && !Mentions(prefix, VIOLATION_RE.opening)
    ensures ParsedFinding(InLog(prefix, v, suffix), exitCode, timedOut)
            == if timedOut || exitCode == None || exitCode == Some(0) then None
               else if v.stepIndex <= I32_MAX
                 then Some(ParsedViolation(v.invariantName, v.stepIndex, Trim(FirstLine(v.message))))
               else Some(ParsedViolation("undeclared_panic", 0, Tail(InLog(prefix, v, suffix), 2000)))
  {
    PrintThenParse(prefix, v, suffix);
  }

  lemma {:induction false} UnmentionedIsNone(re: Pattern, text: string)
    requires !Mentions(text, re.opening)
    ensures FirstMatch(re, text, 0) == None
  {
    forall k: nat | 0 <= k <= |text| ensures MatchAt(re, text, k).None? {
      assert !StartsAt(text, k, re.opening);
    }
    NoMatchMeansNone(re, text, 0, |text|);
  }

  // A crash that printed no violation is still found: as an undeclared panic, with the tail of its log.
  lemma SilentCrashFinding(text: string, exitCode: Option<int>, timedOut: bool)
    requires !Mentions(text, VIOLATION_RE.opening)
    ensures ParsedFinding(text, exitCode, timedOut)
            == if timedOut || exitCode == None || exitCode == Some(0) then None
               else Some(ParsedViolation("undeclared_panic", 0, Tail(text, 2000)))
  {
    UnmentionedIsNone(VIOLATION_RE, text);
  }

  lemma OneGroupIsFound(re: Pattern, class_: Class, prefix: string, word: string, after: string)
    requires re.groups == [Group(class_, "")] && Unbordered(re.opening) && !Mentions(prefix, re.opening)
    requires word != [] && InClass(word, class_) && (after != [] ==> !class_.Has(after[0]))
    ensures FirstMatch(re, prefix + (re.opening + word) + after, 0) == Some([word])
  {
    var text := prefix + (re.opening + word) + after;
    WordInContext(prefix, re.opening + word, after);
    SplitStart(text, |prefix|, re.opening, word);
    assert Written(re.groups, [word]) == word;
    assert after != [] ==> text[|prefix| + |re.opening + word|..][0] == after[0];
    WrittenIsFound(re, prefix, text, [word]);
  }

  lemma ArtifactOpening()
    ensures Unbordered(ARTIFACT_RE.opening)
  {
    var opening := ARTIFACT_RE.opening;
    assert forall k :: 0 <= k < |opening| - 1 ==> opening[1..][k] == opening[k + 1] != 'T';
  }

  // A path without whitespace is recovered from the line libFuzzer prints it on.
  lemma ArtifactThenParse(prefix: string, path: string, after: string)
    requires !Mentions(prefix, ARTIFACT_RE.opening) && path != []
    requires forall k :: 0 <= k < |path| ==> !IsWhitespace(path[k])
    requires after != [] ==> IsWhitespace(after[0])
    ensures ParseArtifactPath(prefix + (ARTIFACT_RE.opening + path) + after) == Some(path)
  {
    ArtifactOpening();
    assert InClass(path, NotWhitespace);
    OneGroupIsFound(ARTIFACT_RE, NotWhitespace, prefix, path, after);
  }
}
