/** The active-profile marker, as far as names survive it (services/upstream.py, config/models.py). */
module MarkerFile {
  import opened Profiles
  import opened Text
  import opened Lines

  /** What the name pattern admits: its `$` also matches in front of one trailing line feed. */
  predicate PatternName(name: string) {
    IsProfileName(name) || (name != "" && name[|name| - 1] == '\n' && IsProfileName(name[..|name| - 1]))
  }

  /** The marker's lines as `selected_profile` compares them with profile names. */
  function MarkerLines(text: string): seq<string> {
    var lines := SplitLines(text);
    seq(|lines|, i requires 0 <= i < |lines| => Strip(lines[i]))
  }

  /**
    The name written by a switch is found again exactly when it has no trailing
    line feed. The model's profiles are the ones of that kind.
   */
  lemma MarkerFindsNameIff(name: string)
    requires PatternName(name)
    ensures name in MarkerLines(name + "\n") <==> IsProfileName(name)
  {
    if IsProfileName(name) {
      NameIsPlain(name);
      assert Terminated([name]) == name + "\n" by {
        assert [name][1..] == [] && name + "\n" + "" == name + "\n";
      }
      hide IsProfileName, Blank, Breaks, Trim;
      SplitTerminated([name]);
      TrimIsNothingIff(name, Blank);
      assert MarkerLines(name + "\n")[0] == name;
    } else {
      hide IsProfileName, SplitLines, Trim;
      var lines := SplitLines(name + "\n");
      forall i | 0 <= i < |lines| ensures Strip(lines[i]) != name {
        TrimIsNothingIff(lines[i], Blank);
      }
    }
  }

  lemma NameIsPlain(name: string)
    requires IsProfileName(name)
    ensures Free(name, Breaks) && name != "" && !Blank(name[0]) && !Blank(name[|name| - 1])
  {
  }

  /** It happens: the pattern admits this name, and the switch to it is not seen. */
  lemma NameNotFound()
    ensures PatternName("a\n") && "a\n" !in MarkerLines("a\n" + "\n")
  {
    assert "a\n"[..1] == "a" && "a"[0] == 'a' && "a\n"[1] == '\n';
    hide MarkerLines;
    MarkerFindsNameIff("a\n");
  }
}
