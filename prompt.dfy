/** The prompt composer of the itinerary generator (`constructItineraryPrompt`):
    a header naming the trip, one line per member listing only the
    preference fields that are set, then fixed instructions and the JSON
    shape the answer must take. */
module PromptComposer {
  import opened Common
  import opened Text
  import opened Store

  datatype MemberPreferences = MemberPreferences(userName: string, preferences: Preferences)

  datatype PromptData = PromptData(
    destination: string,
    dateRange: string,
    groupSize: nat,
    userPreferences: seq<MemberPreferences>)

  datatype Field = TravelStyle | Budget | MustHaves | AvoidList | FoodPrefs | ActivityLevel | AdditionalNotes

  /** The order in which a member's fields are described. */
  const FieldOrder: seq<Field> :=
    [TravelStyle, Budget, MustHaves, AvoidList, FoodPrefs, ActivityLevel, AdditionalNotes]

  /** The position of `f` in FieldOrder. */
  function Rank(f: Field): (r: nat)
    ensures r < |FieldOrder| && FieldOrder[r] == f
  {
    match f
    case TravelStyle => 0
    case Budget => 1
    case MustHaves => 2
    case AvoidList => 3
    case FoodPrefs => 4
    case ActivityLevel => 5
    case AdditionalNotes => 6
  }

  /** Whether field `f` of `p` is described: arrays when non-empty, the
      budget when non-zero, strings when non-empty. */
  predicate Shown(p: Preferences, f: Field) {
    match f
    case TravelStyle => |p.travelStyle| > 0
    case Budget => p.budget != 0
    case MustHaves => |p.mustHaves| > 0
    case AvoidList => |p.avoidList| > 0
    case FoodPrefs => |p.foodPrefs| > 0
    case ActivityLevel => p.activityLevel != ""
    case AdditionalNotes => p.additionalNotes.Some? && p.additionalNotes.value != ""
  }

  /** The text describing field `f`; only the notes have no closing ". ". */
  function Fragment(p: Preferences, f: Field): string {
    match f
    case TravelStyle => "Travel style: " + Join(p.travelStyle, ", ") + ". "
    case Budget => "Budget: $" + IntToString(p.budget) + ". "
    case MustHaves => "Must-haves: " + Join(p.mustHaves, ", ") + ". "
    case AvoidList => "Wants to avoid: " + Join(p.avoidList, ", ") + ". "
    case FoodPrefs => "Food preferences: " + Join(p.foodPrefs, ", ") + ". "
    case ActivityLevel => "Activity level: " + p.activityLevel + ". "
    case AdditionalNotes => "Additional notes: " + (if p.additionalNotes.Some? then p.additionalNotes.value else "")
  }

  predicate InOrder(fs: seq<Field>) {
    forall i, j :: 0 <= i < j < |fs| ==> Rank(fs[i]) < Rank(fs[j])
  }

  /** Appending a field ranked after every field of an ordered list keeps it ordered. */
  lemma InOrderSnoc(fs: seq<Field>, last: Field)
    requires InOrder(fs)
    requires forall f :: f in fs ==> Rank(f) < Rank(last)
    ensures InOrder(fs + [last])
  {
    var r := fs + [last];
    forall i, j | 0 <= i < j < |r| ensures Rank(r[i]) < Rank(r[j]) {
      if j == |fs| {
        assert r[i] == fs[i] && fs[i] in fs;
      } else {
        assert r[i] == fs[i] && r[j] == fs[j];
      }
    }
  }

  /** The fields of `fs` that `p` sets, keeping their order. */
  function ShownFields(p: Preferences, fs: seq<Field>): (r: seq<Field>)
    ensures forall f :: f in r <==> f in fs && Shown(p, f)
    ensures InOrder(fs) ==> InOrder(r)
    decreases |fs|
  {
    if fs == [] then []
    else
      var init, last := fs[..|fs| - 1], fs[|fs| - 1];
      assert fs == init + [last];
      var shown := ShownFields(p, init);
      if Shown(p, last) then
        assert InOrder(fs) ==> InOrder(shown + [last]) by {
          if InOrder(fs) {
            assert InOrder(init) by {
              forall i, j | 0 <= i < j < |init| ensures Rank(init[i]) < Rank(init[j]) {
                assert init[i] == fs[i] && init[j] == fs[j];
              }
            }
            forall f | f in shown ensures Rank(f) < Rank(last) {
              var k :| 0 <= k < |init| && init[k] == f;
              assert fs[k] == f;
            }
            InOrderSnoc(shown, last);
          }
        }
        shown + [last]
      else
        assert InOrder(fs) ==> InOrder(init) by {
          if InOrder(fs) {
            forall i, j | 0 <= i < j < |init| ensures Rank(init[i]) < Rank(init[j]) {
              assert init[i] == fs[i] && init[j] == fs[j];
            }
          }
        }
        shown
  }

  /** The fragments of `fs`, one after the other. */
  function Describe(p: Preferences, fs: seq<Field>): string
    decreases |fs|
  {
    if fs == [] then "" else Describe(p, fs[..|fs| - 1]) + Fragment(p, fs[|fs| - 1])
  }

  /** The line of one member: name, the fields it sets in FieldOrder, a line break. */
  function MemberLine(m: MemberPreferences): string {
    "- " + m.userName + ": " + Describe(m.preferences, ShownFields(m.preferences, FieldOrder)) + "\n"
  }

  function MemberLines(ms: seq<MemberPreferences>): string
    decreases |ms|
  {
    if ms == [] then "" else MemberLines(ms[..|ms| - 1]) + MemberLine(ms[|ms| - 1])
  }

  function Header(d: PromptData): string {
    "Create a detailed travel itinerary for a group of " + NatToString(d.groupSize)
    + " people to " + d.destination + " during " + d.dateRange + ".\n\n"
    + "Group members and their preferences:\n"
  }

  const Closing: string :=
    "\nPlease create a balanced itinerary that tries to accommodate everyone's preferences. "
    + "When there are conflicts, suggest compromises or optional activities that people can choose. "
    + "Structure the itinerary by day, with activities, meals, and accommodations.\n\n"

  const FormatIntro: string := "Format the response as a structured JSON object with the following format:\n"

  /** The JSON template, split where the destination is inserted. */
  const TemplateHead: string := "{\n    \"destination\": \""

  const TemplateTail: string :=
    "\",\n" +
    "    \"days\": [\n" +
    "      {\n" +
    "        \"day\": 1,\n" +
    "        \"date\": \"YYYY-MM-DD\",\n" +
    "        \"activities\": [\n" +
    "          {\n" +
    "            \"time\": \"Morning\",\n" +
    "            \"activity\": \"Visit X attraction\",\n" +
    "            \"description\": \"Description of activity\",\n" +
    "            \"suitableFor\": [\"Person1\", \"Person2\"],\n" +
    "            \"optionalFor\": [\"Person3\"],\n" +
    "            \"estimatedCost\": \"$XX\"\n" +
    "          }\n" +
    "        ],\n" +
    "        \"meals\": [\n" +
    "          {\n" +
    "            \"type\": \"Breakfast/Lunch/Dinner\",\n" +
    "            \"suggestion\": \"Restaurant or meal type\",\n" +
    "            \"accommodates\": [\"dietary preferences\"]\n" +
    "          }\n" +
    "        ],\n" +
    "        \"accommodation\": {\n" +
    "          \"name\": \"Hotel/Airbnb name\",\n" +
    "          \"description\": \"Brief description\",\n" +
    "          \"estimatedCost\": \"$XX\"\n" +
    "        }\n" +
    "      }\n" +
    "    ],\n" +
    "    \"summary\": {\n" +
    "      \"highlights\": [\"Highlight 1\", \"Highlight 2\"],\n" +
    "      \"compromises\": [\"Compromise made for X and Y preferences\"],\n" +
    "      \"estimatedTotalCost\": \"$XXX per person\"\n" +
    "    }\n" +
    "  }"

  /** The whole prompt, as the reference the composer is proved against. */
  function Prompt(d: PromptData): string {
    Header(d) + MemberLines(d.userPreferences) + Closing + FormatIntro
    + (TemplateHead + d.destination + TemplateTail)
  }

  /** What one `if` of the composer appends. */
  function Part(p: Preferences, f: Field): string {
    if Shown(p, f) then Fragment(p, f) else ""
  }

  /** What the tests of the fields `fs`, made in turn, append. */
  function Parts(p: Preferences, fs: seq<Field>): string
    decreases |fs|
  {
    if fs == [] then "" else Parts(p, fs[..|fs| - 1]) + Part(p, fs[|fs| - 1])
  }

  /** Describing the shown fields is the same as testing each field in turn. */
  lemma {:induction false} DescribeShownIsParts(p: Preferences, fs: seq<Field>)
    ensures Describe(p, ShownFields(p, fs)) == Parts(p, fs)
    decreases |fs|
  {
    if fs != [] {
      var init, last := fs[..|fs| - 1], fs[|fs| - 1];
      DescribeShownIsParts(p, init);
      if Shown(p, last) {
        var shown := ShownFields(p, init) + [last];
        assert shown[..|shown| - 1] == ShownFields(p, init);
      }
    }
  }

  /** One more test of the composer extends the tested prefix of the fields:
      if `prompt` held the line so far after testing the first `k` fields
      of `fs`, appending the part of the next field `f` gives the line after
      `k + 1`. */
  lemma PartsStep(p: Preferences, fs: seq<Field>, k: nat, f: Field, lineStart: string, prompt: string)
    requires k < |fs| && fs[k] == f
    requires prompt == lineStart + Parts(p, fs[..k])
    ensures prompt + Part(p, f) == lineStart + Parts(p, fs[..k + 1])
  {
    var next := fs[..k + 1];
    assert next[..k] == fs[..k] && next[k] == f;
    Assoc(lineStart, Parts(p, fs[..k]), Part(p, f));
  }

  lemma Assoc(a: string, b: string, c: string)
    ensures a + b + c == a + (b + c)
  {
  }

  lemma Regroup(a: string, b: string, c: string, d: string)
    ensures a + b + c + d == a + (b + c + d)
  {
  }

  /** The seven tests of a member's fields, in order, as one sum of parts. */
  lemma {:induction false} PartsOfSeven(p: Preferences, lineStart: string, fs: seq<Field>)
    requires |fs| == 7
    ensures lineStart + Parts(p, fs)
         == lineStart + Part(p, fs[0]) + Part(p, fs[1]) + Part(p, fs[2]) + Part(p, fs[3])
            + Part(p, fs[4]) + Part(p, fs[5]) + Part(p, fs[6])
  {
    var s1 := lineStart + Part(p, fs[0]);
    var s2 := s1 + Part(p, fs[1]);
    var s3 := s2 + Part(p, fs[2]);
    var s4 := s3 + Part(p, fs[3]);
    var s5 := s4 + Part(p, fs[4]);
    var s6 := s5 + Part(p, fs[5]);
    assert fs[..0] == [];
    PartsStep(p, fs, 0, fs[0], lineStart, lineStart);
    PartsStep(p, fs, 1, fs[1], lineStart, s1);
    PartsStep(p, fs, 2, fs[2], lineStart, s2);
    PartsStep(p, fs, 3, fs[3], lineStart, s3);
    PartsStep(p, fs, 4, fs[4], lineStart, s4);
    PartsStep(p, fs, 5, fs[5], lineStart, s5);
    PartsStep(p, fs, 6, fs[6], lineStart, s6);
    assert fs[..7] == fs;
  }

  /** The seven tests, made in turn after `lineStart`, append exactly the
      description of the shown fields. */
  lemma LineBody(p: Preferences, lineStart: string)
    ensures lineStart + Describe(p, ShownFields(p, FieldOrder))
         == lineStart + Part(p, TravelStyle) + Part(p, Budget) + Part(p, MustHaves) + Part(p, AvoidList)
            + Part(p, FoodPrefs) + Part(p, ActivityLevel) + Part(p, AdditionalNotes)
  {
    PartsOfSeven(p, lineStart, FieldOrder);
    DescribeShownIsParts(p, FieldOrder);
  }

  /** The body of the composer's `forEach` callback: appends one member's
      line, testing the fields in FieldOrder. */
  method AppendMemberLine(before: string, user: MemberPreferences) returns (prompt: string)
    ensures prompt == before + MemberLine(user)
  {
    var prefs := user.preferences;
    prompt := before + ("- " + user.userName + ": ");
    ghost var lineStart := prompt;
    if |prefs.travelStyle| > 0 {
      prompt := prompt + Fragment(prefs, TravelStyle);
    }
    assert prompt == lineStart + Part(prefs, TravelStyle);
    if prefs.budget != 0 {
      prompt := prompt + Fragment(prefs, Budget);
    }
    assert prompt == lineStart + Part(prefs, TravelStyle) + Part(prefs, Budget);
    if |prefs.mustHaves| > 0 {
      prompt := prompt + Fragment(prefs, MustHaves);
    }
    assert prompt == lineStart + Part(prefs, TravelStyle) + Part(prefs, Budget) + Part(prefs, MustHaves);
    if |prefs.avoidList| > 0 {
      prompt := prompt + Fragment(prefs, AvoidList);
    }
    assert prompt == lineStart + Part(prefs, TravelStyle) + Part(prefs, Budget) + Part(prefs, MustHaves) + Part(prefs, AvoidList);
    if |prefs.foodPrefs| > 0 {
      prompt := prompt + Fragment(prefs, FoodPrefs);
    }
    assert prompt == lineStart + Part(prefs, TravelStyle) + Part(prefs, Budget) + Part(prefs, MustHaves) + Part(prefs, AvoidList) + Part(prefs, FoodPrefs);
    if prefs.activityLevel != "" {
      prompt := prompt + Fragment(prefs, ActivityLevel);
    }
    assert prompt == lineStart + Part(prefs, TravelStyle) + Part(prefs, Budget) + Part(prefs, MustHaves) + Part(prefs, AvoidList) + Part(prefs, FoodPrefs) + Part(prefs, ActivityLevel);
    if prefs.additionalNotes.Some? && prefs.additionalNotes.value != "" {
      prompt := prompt + Fragment(prefs, AdditionalNotes);
    }
    assert prompt == lineStart + Part(prefs, TravelStyle) + Part(prefs, Budget) + Part(prefs, MustHaves) + Part(prefs, AvoidList) + Part(prefs, FoodPrefs) + Part(prefs, ActivityLevel) + Part(prefs, AdditionalNotes);
    LineBody(prefs, lineStart);
    prompt := prompt + "\n";
    Regroup(before, "- " + user.userName + ": ", Describe(prefs, ShownFields(prefs, FieldOrder)), "\n");
  }

  /** constructItineraryPrompt: builds the prompt by appending to a string,
      one member at a time, and yields exactly the reference Prompt. */
  method ConstructItineraryPrompt(data: PromptData) returns (prompt: string)
    ensures prompt == Prompt(data)
  {
    prompt := "Create a detailed travel itinerary for a group of " + NatToString(data.groupSize)
              + " people to " + data.destination + " during " + data.dateRange + ".\n\n";
    prompt := prompt + "Group members and their preferences:\n";
    var users := data.userPreferences;
    for i := 0 to |users|
      invariant prompt == Header(data) + MemberLines(users[..i])
    {
      prompt := AppendMemberLine(prompt, users[i]);
      assert users[..i + 1][..i] == users[..i];
      Assoc(Header(data), MemberLines(users[..i]), MemberLine(users[i]));
    }
    assert users[..|users|] == users;
    prompt := prompt + Closing;
    prompt := prompt + FormatIntro;
    prompt := prompt + (TemplateHead + data.destination + TemplateTail);
  }

  predicate NoNewline(s: string) {
    '\n' !in s
  }

  predicate NoNewlineIn(xs: seq<string>) {
    forall i :: 0 <= i < |xs| ==> NoNewline(xs[i])
  }

  /** None of a member's own strings contains a line break. */
  predicate SingleLine(m: MemberPreferences) {
    var p := m.preferences;
    && NoNewline(m.userName)
    && NoNewlineIn(p.travelStyle) && NoNewlineIn(p.mustHaves)
    && NoNewlineIn(p.avoidList) && NoNewlineIn(p.foodPrefs)
    && NoNewline(p.activityLevel)
    && (p.additionalNotes.Some? ==> NoNewline(p.additionalNotes.value))
  }

  lemma JoinNoNewline(xs: seq<string>)
    requires NoNewlineIn(xs)
    ensures NoNewline(Join(xs, ", "))
  {
  }

  /** Two pieces without a line break make none when put together. */
  lemma ConcatNoNewline(a: string, b: string)
    requires NoNewline(a) && NoNewline(b)
    ensures NoNewline(a + b)
  {
    assert forall c :: c in a + b ==> c in a || c in b;
  }

  /** No fragment of a single-line member holds a line break. */
  lemma FragmentNoNewline(m: MemberPreferences, f: Field)
    requires SingleLine(m)
    ensures NoNewline(Fragment(m.preferences, f))
  {
    var p := m.preferences;
    match f
    case TravelStyle => JoinNoNewline(p.travelStyle);
    case Budget =>
      var digits := IntToString(p.budget);
      assert forall k :: 0 <= k < |digits| ==> digits[k] != '\n';
    case MustHaves => JoinNoNewline(p.mustHaves);
    case AvoidList => JoinNoNewline(p.avoidList);
    case FoodPrefs => JoinNoNewline(p.foodPrefs);
    case ActivityLevel =>
    case AdditionalNotes =>
  }

  lemma {:induction false} DescribeNoNewline(m: MemberPreferences, fs: seq<Field>)
    requires SingleLine(m)
    ensures NoNewline(Describe(m.preferences, fs))
    decreases |fs|
  {
    if fs != [] {
      var p := m.preferences;
      DescribeNoNewline(m, fs[..|fs| - 1]);
      FragmentNoNewline(m, fs[|fs| - 1]);
      ConcatNoNewline(Describe(p, fs[..|fs| - 1]), Fragment(p, fs[|fs| - 1]));
    }
  }

  /** A piece without a line break, then one more, then a line break: one
      line whose only break is the last character. */
  lemma OneLine(lead: string, body: string)
    requires NoNewline(lead) && NoNewline(body)
    ensures var line := lead + body + "\n";
            && |lead| < |line|
            && line[..|lead|] == lead
            && line[|line| - 1] == '\n'
            && multiset(line)['\n'] == 1
  {
    var line := lead + body + "\n";
    assert line[..|lead|] == lead;
    assert multiset(line) == multiset(lead) + multiset(body) + multiset{'\n'};
    assert multiset(lead)['\n'] == 0 && multiset(body)['\n'] == 0;
  }

  /** Each member contributes one line: "- name: ", its fields, and a
      single line break at the very end. */
  lemma MemberLineIsOneLine(m: MemberPreferences)
    requires SingleLine(m)
    ensures var line, lead := MemberLine(m), "- " + m.userName + ": ";
            && |lead| < |line|
            && line[..|lead|] == lead
            && line[|line| - 1] == '\n'
            && multiset(line)['\n'] == 1
  {
    var body := Describe(m.preferences, ShownFields(m.preferences, FieldOrder));
    DescribeNoNewline(m, ShownFields(m.preferences, FieldOrder));
    ConcatNoNewline("- ", m.userName);
    ConcatNoNewline("- " + m.userName, ": ");
    OneLine("- " + m.userName + ": ", body);
  }

  /** The member section of the prompt has exactly one line per member. */
  lemma {:induction false} MemberLinesCount(ms: seq<MemberPreferences>)
    requires forall i :: 0 <= i < |ms| ==> SingleLine(ms[i])
    ensures multiset(MemberLines(ms))['\n'] == |ms|
    decreases |ms|
  {
    if ms != [] {
      MemberLinesCount(ms[..|ms| - 1]);
      MemberLineIsOneLine(ms[|ms| - 1]);
    }
  }
}
