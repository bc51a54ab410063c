/**
  Assembly of the generation prompt from the form's free-text description and the three
  "Advanced Options" check boxes (app.py, lines 143-149). The source builds the prompt with
  `+=` under three guards; BuildPrompt keeps those steps, Directives is the independent
  description of what the guards add, and ParsePrompt takes a prompt apart again.
*/
module ReadmePrompt {
  import opened Wrappers
  import opened Text

  /** The three check boxes: GitHub stats, top languages, contribution streak. */
  datatype Flags = Flags(includeStats: bool, includeLanguages: bool, includeStreak: bool)

  /** What a prompt encodes: the user's description and the options they chose. */
  datatype PromptRequest = PromptRequest(description: string, flags: Flags)

  const Separator: string := "\n\n"
  const StatsLine: string := "Include GitHub statistics visualization.\n"
  const LanguagesLine: string := "Add a top languages card.\n"
  const StreakLine: string := "Include the GitHub streak stats.\n"

  /** The position of a directive line in the fixed order stats, languages, streak. */
  function Rank(line: string): (rank: nat)
  {
    if line == StatsLine then 0 else if line == LanguagesLine then 1 else 2
  }

  /** The directive lines that the enabled options contribute, in the order they are added. */
  function Directives(flags: Flags): (ds: seq<string>)
    ensures StatsLine in ds <==> flags.includeStats
    ensures LanguagesLine in ds <==> flags.includeLanguages
    ensures StreakLine in ds <==> flags.includeStreak
    ensures forall i :: 0 <= i < |ds| ==> ds[i] in [StatsLine, LanguagesLine, StreakLine]
    ensures forall i, j :: 0 <= i < j < |ds| ==> Rank(ds[i]) < Rank(ds[j])
  {
    (if flags.includeStats then [StatsLine] else []) +
    (if flags.includeLanguages then [LanguagesLine] else []) +
    (if flags.includeStreak then [StreakLine] else [])
  }

  /** The lines joined end to end (each directive line carries its own newline). */
  function Concat(lines: seq<string>): (joined: string)
  {
    if lines == [] then "" else lines[0] + Concat(lines[1..])
  }

  lemma {:induction false} ConcatAppend(a: seq<string>, b: seq<string>)
    ensures Concat(a + b) == Concat(a) + Concat(b)
  {
    if a == [] {
      assert a + b == b;
    } else {
      assert (a + b)[1..] == a[1..] + b;
      ConcatAppend(a[1..], b);
    }
  }

  /**
    The prompt sent for generation: the description, a blank line, then one line per enabled
    option in the order stats, languages, streak.
  */
  function BuildPrompt(description: string, flags: Flags): (prompt: string)
    ensures StartsWith(prompt, description + Separator)
    ensures |prompt| == |description| + |Separator|
                        + (if flags.includeStats then |StatsLine| else 0)
                        + (if flags.includeLanguages then |LanguagesLine| else 0)
                        + (if flags.includeStreak then |StreakLine| else 0)
  {
    var fullPrompt := description + Separator;
    var fullPrompt := if flags.includeStats then fullPrompt + StatsLine else fullPrompt;
    var fullPrompt := if flags.includeLanguages then fullPrompt + LanguagesLine else fullPrompt;
    if flags.includeStreak then fullPrompt + StreakLine else fullPrompt
  }

  /** The prompt is the description, the separator, and exactly the enabled directive lines. */
  lemma BuildPromptIsDirectives(description: string, flags: Flags)
    ensures BuildPrompt(description, flags) == description + Separator + Concat(Directives(flags))
  {
    var a := if flags.includeStats then [StatsLine] else [];
    var b := if flags.includeLanguages then [LanguagesLine] else [];
    var c := if flags.includeStreak then [StreakLine] else [];
    ConcatAppend(a + b, c);
    ConcatAppend(a, b);
    assert Concat(a) == if flags.includeStats then StatsLine else "";
    assert Concat(b) == if flags.includeLanguages then LanguagesLine else "";
    assert Concat(c) == if flags.includeStreak then StreakLine else "";
  }

  /**
    Recovers the description and the options from a prompt by peeling the directive lines off
    its end in reverse order, then the separator.
  */
  function ParsePrompt(prompt: string): (request: Option<PromptRequest>)
  {
    var (rest, streak) := StripSuffix(prompt, StreakLine);
    var (rest, languages) := StripSuffix(rest, LanguagesLine);
    var (rest, stats) := StripSuffix(rest, StatsLine);
    if EndsWith(rest, Separator) then
      Some(PromptRequest(rest[..|rest| - |Separator|], Flags(stats, languages, streak)))
    else
      None
  }

  /** The description plus separator, followed by the stats line when that option is on. */
  lemma StripStats(description: string, stats: bool)
    ensures var p := description + Separator;
            StripSuffix(if stats then p + StatsLine else p, StatsLine) == (p, stats)
  {
    var p := description + Separator;
    if stats {
      EndsWithAppend(p, StatsLine);
    } else {
      NotEndsWith(description, Separator, StatsLine, 2);
    }
  }

  lemma StripLanguages(description: string, stats: bool, languages: bool)
    ensures var p := description + Separator;
            var p1 := if stats then p + StatsLine else p;
            StripSuffix(if languages then p1 + LanguagesLine else p1, LanguagesLine) == (p1, languages)
  {
    var p := description + Separator;
    var p1 := if stats then p + StatsLine else p;
    if languages {
      EndsWithAppend(p1, LanguagesLine);
    } else if stats {
      NotEndsWith(p, StatsLine, LanguagesLine, 3);
    } else {
      NotEndsWith(description, Separator, LanguagesLine, 2);
    }
  }

  lemma StripStreak(description: string, flags: Flags)
    ensures var p := description + Separator;
            var p1 := if flags.includeStats then p + StatsLine else p;
            var p2 := if flags.includeLanguages then p1 + LanguagesLine else p1;
            StripSuffix(BuildPrompt(description, flags), StreakLine) == (p2, flags.includeStreak)
  {
    var p := description + Separator;
    var p1 := if flags.includeStats then p + StatsLine else p;
    var p2 := if flags.includeLanguages then p1 + LanguagesLine else p1;
    if flags.includeStreak {
      EndsWithAppend(p2, StreakLine);
    } else if flags.includeLanguages {
      NotEndsWith(p1, LanguagesLine, StreakLine, 3);
    } else if flags.includeStats {
      NotEndsWith(p, StatsLine, StreakLine, 3);
    } else {
      NotEndsWith(description, Separator, StreakLine, 2);
    }
  }

  /** Parsing undoes assembly: the prompt determines both the description and every option. */
  lemma {:induction false} ParseBuildPrompt(description: string, flags: Flags)
    ensures ParsePrompt(BuildPrompt(description, flags)) == Some(PromptRequest(description, flags))
  {
    StripStreak(description, flags);
    StripLanguages(description, flags.includeStats, flags.includeLanguages);
    StripStats(description, flags.includeStats);
    EndsWithAppend(description, Separator);
  }

  /** Different form inputs never produce the same prompt. */
  lemma BuildPromptInjective(d1: string, f1: Flags, d2: string, f2: Flags)
    requires BuildPrompt(d1, f1) == BuildPrompt(d2, f2)
    ensures d1 == d2 && f1 == f2
  {
    ParseBuildPrompt(d1, f1);
    ParseBuildPrompt(d2, f2);
  }

  /** With stats and streak on and languages off, exactly the stats line then the streak line follow the separator. */
  lemma StatsAndStreakScenario(description: string)
    ensures BuildPrompt(description, Flags(true, false, true))
         == description + "\n\n" + "Include GitHub statistics visualization.\n"
                                 + "Include the GitHub streak stats.\n"
  {
  }
}
