/** The input side of the REPL in repl.go: `cleanInput`, the split of a
    line into command name and arguments, and the command table.

    Go's `strings.ToLower` and `strings.Fields` are Unicode-aware; this
    model covers their ASCII behaviour: `A`-`Z` are the upper-case letters
    and space, tab, newline, vertical tab, form feed and carriage return are
    the white space. */
module Repl {
  import opened Wrappers

  predicate IsSpace(ch: char)
  {
    ch == ' ' || ch == '\t' || ch == '\n' || ch == '\U{B}' || ch == '\U{C}' || ch == '\r'
  }

  predicate IsUpper(ch: char)
  {
    'A' <= ch <= 'Z'
  }

  /** The ASCII lower-case mapping of one character. */
  function LowerChar(ch: char): (r: char)
    ensures !IsUpper(r)
    ensures !IsUpper(ch) ==> r == ch
    ensures IsUpper(ch) ==> 'a' <= r <= 'z' && r as int - ch as int == 'a' as int - 'A' as int
    ensures IsSpace(r) <==> IsSpace(ch)
  {
    if IsUpper(ch) then (ch as int - 'A' as int + 'a' as int) as char else ch
  }

  /** `strings.ToLower`, character by character. */
  function ToLower(s: string): (r: string)
    ensures |r| == |s|
    ensures forall i :: 0 <= i < |s| ==> r[i] == LowerChar(s[i])
  {
    seq(|s|, i requires 0 <= i < |s| => LowerChar(s[i]))
  }

  predicate NoUpper(s: string)
  {
    forall i :: 0 <= i < |s| ==> !IsUpper(s[i])
  }

  /** A field: a non-empty run of characters none of which is white space. */
  predicate IsWord(w: string)
  {
    |w| > 0 && forall i :: 0 <= i < |w| ==> !IsSpace(w[i])
  }

  /** The length of the run of non-space characters at the front of `s`. */
  function WordLength(s: string): (n: nat)
    ensures n <= |s|
    ensures forall i :: 0 <= i < n ==> !IsSpace(s[i])
    ensures n < |s| ==> IsSpace(s[n])
    decreases |s|
  {
    if |s| == 0 || IsSpace(s[0]) then 0 else 1 + WordLength(s[1..])
  }

  /** `strings.Fields`: the maximal runs of non-space characters, in order. */
  function Fields(s: string): (words: seq<string>)
    ensures forall i :: 0 <= i < |words| ==> IsWord(words[i])
    decreases |s|
  {
    if |s| == 0 then []
    else if IsSpace(s[0]) then Fields(s[1..])
    else
      var n := WordLength(s);
      [s[..n]] + Fields(s[n..])
  }

  /** `cleanInput`: lower-case the line, then split it into fields. */
  function CleanInput(text: string): (words: seq<string>)
    ensures forall i :: 0 <= i < |words| ==> IsWord(words[i]) && NoUpper(words[i])
  {
    var lowered := ToLower(text);
    var words := Fields(lowered);
    FieldsNoUpper(lowered);
    words
  }

  /** Fields are substrings, so a line without upper case yields words without. */
  lemma {:induction false} FieldsNoUpper(s: string)
    requires NoUpper(s)
    ensures forall i :: 0 <= i < |Fields(s)| ==> NoUpper(Fields(s)[i])
    decreases |s|
  {
    if |s| > 0 {
      if IsSpace(s[0]) {
        FieldsNoUpper(s[1..]);
      } else {
        var n := WordLength(s);
        FieldsNoUpper(s[n..]);
        assert Fields(s) == [s[..n]] + Fields(s[n..]);
      }
    }
  }

  /** The line with every white-space character dropped. */
  function RemoveSpaces(s: string): string
    decreases |s|
  {
    if |s| == 0 then []
    else if IsSpace(s[0]) then RemoveSpaces(s[1..])
    else [s[0]] + RemoveSpaces(s[1..])
  }

  /** The words laid end to end. */
  function Concat(words: seq<string>): string
    decreases |words|
  {
    if |words| == 0 then [] else words[0] + Concat(words[1..])
  }

  /** The words joined by single spaces. */
  function Join(words: seq<string>): string
    decreases |words|
  {
    if |words| == 0 then []
    else if |words| == 1 then words[0]
    else words[0] + " " + Join(words[1..])
  }

  lemma {:induction false} RemoveSpacesOfWord(w: string)
    requires forall i :: 0 <= i < |w| ==> !IsSpace(w[i])
    ensures RemoveSpaces(w) == w
    decreases |w|
  {
    if |w| > 0 {
      RemoveSpacesOfWord(w[1..]);
    }
  }

  lemma {:induction false} RemoveSpacesAppend(a: string, b: string)
    ensures RemoveSpaces(a + b) == RemoveSpaces(a) + RemoveSpaces(b)
    decreases |a|
  {
    if |a| > 0 {
      assert (a + b)[1..] == a[1..] + b;
      RemoveSpacesAppend(a[1..], b);
    } else {
      assert a + b == b;
    }
  }

  lemma {:induction false} ConcatAppend(u: seq<string>, v: seq<string>)
    ensures Concat(u + v) == Concat(u) + Concat(v)
    decreases |u|
  {
    if |u| > 0 {
      assert (u + v)[1..] == u[1..] + v;
      ConcatAppend(u[1..], v);
    } else {
      assert u + v == v;
    }
  }

  /** Fields keep every non-space character and its order: laid end to end,
      the words are the line with its white space removed. */
  lemma {:induction false} FieldsKeepText(s: string)
    ensures Concat(Fields(s)) == RemoveSpaces(s)
    decreases |s|
  {
    if |s| > 0 {
      if IsSpace(s[0]) {
        FieldsKeepText(s[1..]);
      } else {
        var n := WordLength(s);
        FieldsKeepText(s[n..]);
        ConcatAppend([s[..n]], Fields(s[n..]));
        assert Concat([s[..n]]) == s[..n] by {
          assert [s[..n]][1..] == [];
        }
        assert s == s[..n] + s[n..];
        RemoveSpacesAppend(s[..n], s[n..]);
        RemoveSpacesOfWord(s[..n]);
      }
    }
  }

  /** A line yields no words exactly when it is all white space. */
  lemma {:induction false} FieldsEmptyIffBlank(s: string)
    ensures Fields(s) == [] <==> forall i :: 0 <= i < |s| ==> IsSpace(s[i])
    decreases |s|
  {
    if |s| > 0 {
      FieldsEmptyIffBlank(s[1..]);
      if IsSpace(s[0]) {
        if forall i :: 0 <= i < |s[1..]| ==> IsSpace(s[1..][i]) {
          forall i | 0 <= i < |s|
            ensures IsSpace(s[i])
          {
            if i > 0 { assert s[i] == s[1..][i - 1]; }
          }
        }
      } else {
        assert !IsSpace(s[0]);
      }
    }
  }

  /** A word followed by nothing or by white space is the first field. */
  lemma {:induction false} FieldsOfWordThen(w: string, rest: string)
    requires IsWord(w)
    requires |rest| == 0 || IsSpace(rest[0])
    ensures Fields(w + rest) == [w] + Fields(rest)
  {
    WordLengthOfWordThen(w, rest);
    var s := w + rest;
    assert s[..|w|] == w;
    assert s[|w|..] == rest;
  }

  lemma {:induction false} WordLengthOfWordThen(w: string, rest: string)
    requires forall i :: 0 <= i < |w| ==> !IsSpace(w[i])
    requires |rest| == 0 || IsSpace(rest[0])
    ensures WordLength(w + rest) == |w|
    decreases |w|
  {
    if |w| == 0 {
      assert w + rest == rest;
    } else {
      assert (w + rest)[1..] == w[1..] + rest;
      WordLengthOfWordThen(w[1..], rest);
    }
  }

  /** Joining well-formed words with spaces and splitting again gives them back. */
  lemma {:induction false} FieldsOfJoin(words: seq<string>)
    requires forall i :: 0 <= i < |words| ==> IsWord(words[i])
    ensures Fields(Join(words)) == words
    decreases |words|
  {
    if |words| == 1 {
      FieldsOfWordThen(words[0], []);
      assert words[0] + [] == words[0];
    } else if |words| > 1 {
      var tail := Join(words[1..]);
      FieldsOfJoin(words[1..]);
      assert Join(words) == words[0] + (" " + tail);
      FieldsOfWordThen(words[0], " " + tail);
      assert (" " + tail)[1..] == tail;
      assert words == [words[0]] + words[1..];
    }
  }

  /** Words without upper case join into a line without upper case. */
  lemma {:induction false} JoinNoUpper(words: seq<string>)
    requires forall i :: 0 <= i < |words| ==> NoUpper(words[i])
    ensures NoUpper(Join(words))
    decreases |words|
  {
    if |words| > 1 {
      JoinNoUpper(words[1..]);
      var tail := Join(words[1..]);
      assert Join(words) == words[0] + " " + tail;
      forall i | 0 <= i < |Join(words)|
        ensures !IsUpper(Join(words)[i])
      {
        if i < |words[0]| {
        } else if i == |words[0]| {
        } else {
          assert Join(words)[i] == tail[i - |words[0]| - 1];
        }
      }
    }
  }

  lemma ToLowerOfLower(s: string)
    requires NoUpper(s)
    ensures ToLower(s) == s
  {
  }

  /** `cleanInput` depends on its input only through the lower-cased line. */
  lemma CleanInputSeesOnlyLowerCase(a: string, b: string)
    requires ToLower(a) == ToLower(b)
    ensures CleanInput(a) == CleanInput(b)
  {
  }

  /** Lower-casing twice is lower-casing once. */
  lemma ToLowerIdempotent(s: string)
    ensures ToLower(ToLower(s)) == ToLower(s)
  {
  }

  /** `cleanInput` is idempotent: re-cleaning its words, joined by spaces,
      gives the same words. */
  lemma CleanInputIdempotent(text: string)
    ensures CleanInput(Join(CleanInput(text))) == CleanInput(text)
  {
    var words := CleanInput(text);
    JoinNoUpper(words);
    ToLowerOfLower(Join(words));
    FieldsOfJoin(words);
  }

  /** Only blank input cleans to no words. */
  lemma CleanInputEmptyIffBlank(text: string)
    ensures CleanInput(text) == [] <==> forall i :: 0 <= i < |text| ==> IsSpace(text[i])
  {
    FieldsEmptyIffBlank(ToLower(text));
  }

  /** `cleanInput` keeps the line's letters in order, lower-cased. */
  lemma CleanInputKeepsText(text: string)
    ensures Concat(CleanInput(text)) == RemoveSpaces(ToLower(text))
  {
    FieldsKeepText(ToLower(text));
  }

  /** Leading white space contributes no field. */
  lemma FieldsSkipSpaces(pad: string, rest: string)
    requires forall i :: 0 <= i < |pad| ==> IsSpace(pad[i])
    ensures Fields(pad + rest) == Fields(rest)
    decreases |pad|
  {
    if |pad| > 0 {
      assert (pad + rest)[1..] == pad[1..] + rest;
      FieldsSkipSpaces(pad[1..], rest);
    } else {
      assert pad + rest == rest;
    }
  }

  predicate IsBlank(s: string)
  {
    forall i :: 0 <= i < |s| ==> IsSpace(s[i])
  }

  /** Words padded by white space on every side are exactly the fields. */
  lemma FieldsOfPadded(words: seq<string>, pads: seq<string>)
    requires |pads| == |words| + 1
    requires forall i :: 0 <= i < |words| ==> IsWord(words[i])
    requires forall i :: 0 <= i < |pads| ==> IsBlank(pads[i])
    requires forall i :: 0 < i < |words| ==> |pads[i]| > 0
    ensures Fields(Padded(words, pads)) == words
    decreases |words|
  {
    if |words| == 0 {
      FieldsEmptyIffBlank(pads[0]);
    } else {
      var rest := Padded(words[1..], pads[1..]);
      FieldsOfPadded(words[1..], pads[1..]);
      FieldsSkipSpaces(pads[0], words[0] + rest);
      assert |words[1..]| > 0 ==> pads[1..][0] == pads[1] && |pads[1]| > 0 && IsSpace(pads[1][0]);
      FieldsOfWordThen(words[0], rest);
      assert words == [words[0]] + words[1..];
    }
  }

  /** `pads[0] + words[0] + pads[1] + ... + words[n-1] + pads[n]`. */
  function Padded(words: seq<string>, pads: seq<string>): string
    requires |pads| == |words| + 1
    decreases |words|
  {
    if |words| == 0 then pads[0] else pads[0] + (words[0] + Padded(words[1..], pads[1..]))
  }

  /** Test case of the REPL's table: blank input gives no words. */
  lemma CleanInputBlankExample()
    ensures CleanInput("  ") == []
  {
    FieldsEmptyIffBlank(ToLower("  "));
  }

  /** Test case of the REPL's table: one padded word. */
  lemma CleanInputOneWordExample()
    ensures CleanInput("  hello  ") == ["hello"]
  {
    var line := "  hello  ";
    ToLowerOfLower(line);
    assert Padded(["hello"], ["  ", "  "]) == line;
    FieldsOfPadded(["hello"], ["  ", "  "]);
  }

  /** Test case of the REPL's table: two padded words. */
  lemma CleanInputTwoWordsExample()
    ensures CleanInput("  hello  world  ") == ["hello", "world"]
  {
    var line := "  hello  world  ";
    ToLowerOfLower(line);
    assert Padded(["hello", "world"], ["  ", "  ", "  "]) == line;
    FieldsOfPadded(["hello", "world"], ["  ", "  ", "  "]);
  }

  /** Test case of the REPL's table: mixed case is lower-cased. */
  lemma CleanInputMixedCaseExample()
    ensures CleanInput("  HellO  World  ") == ["hello", "world"]
  {
    LowerMixedCase();
    CleanInputTwoWordsExample();
    CleanInputSeesOnlyLowerCase("  HellO  World  ", "  hello  world  ");
  }

  lemma LowerMixedCase()
    ensures ToLower("  HellO  World  ") == "  hello  world  "
  {
    var line := "  HellO  World  ";
    var lower := "  hello  world  ";
    forall i | 0 <= i < |line|
      ensures ToLower(line)[i] == lower[i]
    {
    }
  }

  /** The callbacks the command table refers to. */
  datatype Callback = CommandHelp | CommandMapf | CommandMapb | CommandExplore | CommandExit

  /** `cliCommand`: a table entry. */
  datatype CliCommand = CliCommand(name: string, description: string, callback: Callback)

  /** `getCommands`: the fixed command table. */
  function GetCommands(): (table: map<string, CliCommand>)
    ensures table.Keys == {"help", "map", "mapb", "explore", "exit"}
    ensures table["map"].callback == CommandMapf && table["mapb"].callback == CommandMapb
  {
    map[
      "help" := CliCommand("help", "Displays a help message", CommandHelp),
      "map" := CliCommand("map", "Get the next page of locations", CommandMapf),
      "mapb" := CliCommand("mapb", "Get the previous page of locations", CommandMapb),
      "explore" := CliCommand("explore <location_name>", "Explore a location", CommandExplore),
      "exit" := CliCommand("exit", "Exit the Pokedex", CommandExit)
    ]
  }

  /** Each table entry is stored under its own name, except `explore`, whose
      display name also carries its argument. */
  lemma CommandNamesMatchKeys()
    ensures forall key :: key in GetCommands() && key != "explore" ==> GetCommands()[key].name == key
    ensures GetCommands()["explore"].name == "explore <location_name>"
  {
  }

  /** A line as the loop sees it: the command name and its arguments. */
  datatype CommandLine = CommandLine(name: string, args: seq<string>)

  /** The split in `startRepl`: nothing for no words, otherwise the first word
      is the command and the remaining words (possibly none) the arguments. */
  function SplitCommand(words: seq<string>): (r: Option<CommandLine>)
    ensures r.None? <==> words == []
    ensures r.Some? ==> [r.value.name] + r.value.args == words
  {
    if |words| == 0 then None
    else if |words| > 1 then Some(CommandLine(words[0], words[1..]))
    else Some(CommandLine(words[0], []))
  }

  /** What one iteration of the loop does with a line. */
  datatype Action =
    | Skip                                        // no words: prompt again
    | Unknown(name: string)                       // prints "Unknown command"
    | Invoke(command: CliCommand, args: seq<string>)

  /** One iteration of `startRepl`, up to calling the callback. */
  function Dispatch(line: string): (a: Action)
    ensures a.Skip? <==> forall i :: 0 <= i < |line| ==> IsSpace(line[i])
    ensures !a.Skip? ==> |CleanInput(line)| > 0
    ensures a.Unknown? ==> a.name == CleanInput(line)[0] && a.name !in GetCommands()
    ensures a.Invoke? ==> && CleanInput(line)[0] in GetCommands()
                          && a.command == GetCommands()[CleanInput(line)[0]]
                          && a.args == CleanInput(line)[1..]
  {
    CleanInputEmptyIffBlank(line);
    match SplitCommand(CleanInput(line))
    case None => Skip
    case Some(CommandLine(name, args)) =>
      if name in GetCommands() then Invoke(GetCommands()[name], args) else Unknown(name)
  }

  /** Commands are case-insensitive: a line and its lower-cased form dispatch alike. */
  lemma DispatchIgnoresCase(line: string)
    ensures Dispatch(ToLower(line)) == Dispatch(line)
  {
    ToLowerIdempotent(line);
    CleanInputSeesOnlyLowerCase(ToLower(line), line);
  }
}
