/** Setting a user's groups in the whole ocpasswd file (services/users.py, `set_user_groups`). */
module UserGroups {
  import opened Options
  import opened Text
  import opened Lines
  import opened Ocpasswd

  /** The groups asked for, stripped, without the empty ones. */
  function CleanGroups(groups: seq<string>): seq<string> {
    if groups == [] then []
    else (if Strip(groups[0]) != "" then [Strip(groups[0])] else []) + CleanGroups(groups[1..])
  }

  predicate AllValid(groups: seq<string>) {
    forall i :: 0 <= i < |groups| ==> ValidName(groups[i])
  }

  predicate Matches(line: string, username: string) {
    Parse(line).username == username
  }

  function RewriteLine(line: string, username: string, groups: seq<string>): string {
    if Matches(line, username) then Render(Parse(line), groups) else line
  }

  function RewriteLines(lines: seq<string>, username: string, groups: seq<string>): seq<string> {
    seq(|lines|, i requires 0 <= i < |lines| => RewriteLine(lines[i], username, groups))
  }

  /** A missing file has no lines. */
  function LinesOf(file: Option<string>): seq<string> {
    if file.Some? then SplitLines(file.value) else []
  }

  predicate Mentioned(lines: seq<string>, username: string) {
    exists i :: 0 <= i < |lines| && Matches(lines[i], username)
  }

  /** The file is written only if some line was the user's. */
  function NewFile(file: Option<string>, username: string, groups: seq<string>): Option<string> {
    if Mentioned(LinesOf(file), username) then Some(Terminated(RewriteLines(LinesOf(file), username, groups)))
    else file
  }

  // --- Reading -------------------------------------------------------------

  predicate Listed(line: string) {
    line != "" && line[0] != '#' && First(line, IsColon) < |line|
  }

  /** The first listed record of that name. */
  function Lookup(lines: seq<string>, username: string): Option<Record> {
    if lines == [] then None
    else if Listed(lines[0]) && Matches(lines[0], username) then Some(Parse(lines[0]))
    else Lookup(lines[1..], username)
  }

  // --- One line ------------------------------------------------------------

  lemma {:induction false} JoinFree(parts: seq<string>, sep: char, p: char -> bool)
    requires parts != [] && !p(sep) && forall i :: 0 <= i < |parts| ==> Free(parts[i], p)
    ensures Free(Join(parts, sep), p)
    decreases |parts|
  {
    assert Free(parts[0], p);
    if |parts| > 1 {
      JoinFree(parts[1..], sep, p);
    }
  }

  lemma {:induction false} PartsFree(s: string, p: char -> bool, q: char -> bool)
    requires Free(s, q)
    ensures forall i :: 0 <= i < |Split(s, p)| ==> Free(Split(s, p)[i], q)
    decreases |s|
  {
    var k := First(s, p);
    if k < |s| {
      PartsFree(s[k + 1..], p, q);
    }
  }

  lemma GroupTextFree(groups: seq<string>)
    requires GroupNames(groups)
    ensures Free(GroupText(groups), Breaks) && Free(GroupText(groups), IsColon)
  {
    if groups != [] {
      GroupTextChars(groups);
    }
  }

  lemma NewFieldsFree(fields: seq<string>, t: string, p: char -> bool)
    requires Free(t, p) && forall i :: 0 <= i < |fields| ==> Free(fields[i], p)
    ensures forall i :: 0 <= i < |NewFields(fields, t)| ==> Free(NewFields(fields, t)[i], p)
  {
    hide Free;
  }

  /** A rewritten line is one line, and parses into exactly the new fields. */
  lemma RenderedLine(line: string, groups: seq<string>)
    requires Free(line, Breaks) && GroupNames(groups)
    ensures
      var fields := NewFields(Split(line, IsColon), GroupText(groups));
      && Free(Render(Parse(line), groups), Breaks)
      && Parse(Render(Parse(line), groups)) == ParseFields(fields)
  {
    hide GroupText, GroupNames, Breaks, Free, NewFields, Split, ParseFields;
    var old' := Split(line, IsColon);
    var fields := NewFields(old', GroupText(groups));
    GroupTextFree(groups);
    PartsFree(line, IsColon, Breaks);
    NewFieldsFree(old', GroupText(groups), Breaks);
    NewFieldsFree(old', GroupText(groups), IsColon);
    ColonIsNoBreak();
    JoinFree(fields, ':', Breaks);
    SplitJoin(fields, ':', IsColon);
    assert Parse(line).fields == old' by { ParsedFields(old'); }
  }

  lemma ParsedFields(fields: seq<string>)
    requires fields != []
    ensures ParseFields(fields).fields == fields
    ensures ParseFields(fields).username == TrimLeft(fields[0], IsBang)
  {
  }

  lemma ColonIsNoBreak()
    ensures !Breaks(':') && IsColon(':')
  {
  }

  /** A line is listed when it has fields, and its name does not start a comment. */
  lemma ListedIff(line: string)
    requires Split(line, IsColon)[0] != ""
    ensures Listed(line) <==> Split(line, IsColon)[0][0] != '#' && |Split(line, IsColon)| >= 2
  {
  }

  lemma NewFieldsShape(fields: seq<string>, t: string)
    requires fields != []
    ensures |NewFields(fields, t)| >= 2 <==> |fields| >= 2
  {
  }

  lemma ParseIs(line: string)
    ensures Parse(line) == ParseFields(Split(line, IsColon))
  {
    hide Split, ParseFields;
  }

  lemma RewrittenMatch(line: string, groups: seq<string>)
    requires Free(line, Breaks) && GroupNames(groups) && Parse(line).username != ""
    ensures
      var r := Render(Parse(line), groups);
      && Free(r, Breaks) && Listed(r) == Listed(line)
      && Parse(r).username == Parse(line).username
      && Parse(line) == ParseFields(Split(line, IsColon))
      && Parse(r) == ParseFields(NewFields(Split(line, IsColon), GroupText(groups)))
  {
    hide *;
    ParseIs(line);
    var r := Render(Parse(line), groups);
    ParseIs(r);
    var fields := Split(line, IsColon);
    var next := NewFields(fields, GroupText(groups));
    RenderedLine(line, groups);
    ParsedFields(fields);
    ParsedFields(next);
    ParsedFields(Split(r, IsColon));
    assert Split(r, IsColon) == next && next[0] == fields[0] != "";
    NewFieldsShape(fields, GroupText(groups));
    ListedIff(line);
    ListedIff(r);
  }

  lemma RewrittenLine(line: string, username: string, groups: seq<string>)
    requires Free(line, Breaks) && GroupNames(groups) && username != ""
    ensures
      var r := RewriteLine(line, username, groups);
      && Free(r, Breaks) && Parse(r).username == Parse(line).username
      && (Matches(line, username) ==>
            && Listed(r) == Listed(line)
            && Parse(line) == ParseFields(Split(line, IsColon))
            && Parse(r) == ParseFields(NewFields(Split(line, IsColon), GroupText(groups))))
      && (!Matches(line, username) ==> r == line)
  {
    hide Free, GroupNames, Parse, Render, Listed, ParseFields, NewFields, Split, GroupText, Breaks;
    if Matches(line, username) {
      RewrittenMatch(line, groups);
    }
  }

  // --- The whole file ------------------------------------------------------

  /** Written out and read again: the rewritten lines, whether or not anything was written. */
  lemma FileReadsBack(file: Option<string>, username: string, groups: seq<string>)
    requires GroupNames(groups) && username != ""
    ensures file.Some? ==> NewFile(file, username, groups).Some?
    ensures LinesOf(NewFile(file, username, groups)) == RewriteLines(LinesOf(file), username, groups)
  {
    hide GroupNames, GroupText, Parse, Render, Free, SplitLines;
    var lines := LinesOf(file);
    var next := RewriteLines(lines, username, groups);
    if file.Some? {
      SplitLinesFree(file.value);
    }
    if Mentioned(lines, username) {
      forall i | 0 <= i < |next| ensures Free(next[i], Breaks) {
        RewrittenLine(lines[i], username, groups);
      }
      SplitTerminated(next);
    } else {
      forall i | 0 <= i < |next| ensures next[i] == lines[i] {
        assert !Matches(lines[i], username);
      }
      assert next == lines;
    }
  }

  /** Nobody else's record changes. */
  lemma {:induction false} OthersKept(lines: seq<string>, username: string, groups: seq<string>, other: string)
    requires forall i :: 0 <= i < |lines| ==> Free(lines[i], Breaks)
    requires GroupNames(groups) && username != "" && other != username
    ensures Lookup(RewriteLines(lines, username, groups), other) == Lookup(lines, other)
  {
    hide GroupNames, GroupText, Listed, Parse, Free, RewriteLine, Breaks, NewFields, ParseFields, Split;
    if lines != [] {
      RewrittenLine(lines[0], username, groups);
      OthersKept(lines[1..], username, groups, other);
      var next := RewriteLines(lines, username, groups);
      assert next[0] == RewriteLine(lines[0], username, groups);
      assert next[1..] == RewriteLines(lines[1..], username, groups);
    }
  }

  /** The user's record is the one found before, with its fields rewritten. */
  lemma {:induction false} OwnRewritten(lines: seq<string>, username: string, groups: seq<string>)
    requires forall i :: 0 <= i < |lines| ==> Free(lines[i], Breaks)
    requires GroupNames(groups) && username != ""
    ensures
      var was := Lookup(lines, username);
      var now := Lookup(RewriteLines(lines, username, groups), username);
      && (now.Some? <==> was.Some?)
      && (was.Some? ==>
            was.value.fields != [] && was.value == ParseFields(was.value.fields)
            && now.value == ParseFields(NewFields(was.value.fields, GroupText(groups))))
  {
    hide GroupNames, GroupText, Listed, Free, NewFields, Parse, RewriteLine, Breaks, ParseFields, Split;
    if lines != [] {
      RewrittenLine(lines[0], username, groups);
      OwnRewritten(lines[1..], username, groups);
      var next := RewriteLines(lines, username, groups);
      assert next[0] == RewriteLine(lines[0], username, groups);
      assert next[1..] == RewriteLines(lines[1..], username, groups);
      ParsedFields(Split(lines[0], IsColon));
    }
  }

  /**
    Setting groups and reading the file again: the user has exactly those groups
    and still the same lock and hash, and every other user's record is the same.
   */
  lemma GroupsAreSet(file: Option<string>, username: string, groups: seq<string>, other: string)
    requires username != "" && Storable(groups) && other != username
    ensures
      var was := Lookup(LinesOf(file), username);
      var after := LinesOf(NewFile(file, username, groups));
      && Lookup(after, other) == Lookup(LinesOf(file), other)
      && (Lookup(after, username).Some? <==> was.Some?)
      && (was.Some? && WellFormed(was.value.fields) ==>
            var now := Lookup(after, username).value;
            && now.groups == groups && now.username == was.value.username && now.disabled == was.value.disabled
            && WellFormed(now.fields) && Password(now.fields) == Password(was.value.fields))
  {
    var lines := LinesOf(file);
    assert forall i :: 0 <= i < |lines| ==> Free(lines[i], Breaks) by {
      if file.Some? {
        SplitLinesFree(file.value);
      }
    }
    assert GroupNames(groups);
    FileReadsBack(file, username, groups);
    OthersKept(lines, username, groups, other);
    OwnRewritten(lines, username, groups);
    hide Free, GroupText, GroupNames, RewriteLines, NewFile, SplitLines, Parse;
    var was := Lookup(lines, username);
    if was.Some? && WellFormed(was.value.fields) {
      AccountKept(was.value.fields, groups);
      ParsedFields(NewFields(was.value.fields, GroupText(groups)));
    }
  }

  /** Line by line: each of the user's lines, however many, has its fields rewritten; all others are the same text. */
  lemma LinesRewritten(lines: seq<string>, username: string, groups: seq<string>, i: nat)
    requires i < |lines| && Free(lines[i], Breaks) && GroupNames(groups) && username != ""
    ensures
      var after := RewriteLines(lines, username, groups);
      && |after| == |lines|
      && (Matches(lines[i], username) ==>
            Parse(after[i]) == ParseFields(NewFields(Split(lines[i], IsColon), GroupText(groups))))
      && (!Matches(lines[i], username) ==> after[i] == lines[i])
  {
    hide GroupNames, GroupText, Free, NewFields, Parse, RewriteLine, Breaks, ParseFields, Split;
    RewrittenLine(lines[i], username, groups);
  }

  /** A file without a line of that name stays as it is, character by character. */
  lemma UnknownUserChangesNothing(file: Option<string>, username: string, groups: seq<string>)
    requires forall i :: 0 <= i < |LinesOf(file)| ==> Parse(LinesOf(file)[i]).username != username
    ensures NewFile(file, username, groups) == file
  {
    hide Parse, SplitLines, Render;
  }

  ghost predicate Asked(groups: seq<string>, g: string) {
    exists i :: 0 <= i < |groups| && Strip(groups[i]) == g
  }

  lemma AskedParts(groups: seq<string>, g: string)
    requires groups != []
    ensures Asked(groups, g) <==> Strip(groups[0]) == g || Asked(groups[1..], g)
  {
    hide Strip;
    var rest := groups[1..];
    if i :| 0 < i < |groups| && Strip(groups[i]) == g {
      assert rest[i - 1] == groups[i];
    }
    if i :| 0 <= i < |rest| && Strip(rest[i]) == g {
      assert groups[i + 1] == rest[i];
    }
  }

  /** The groups asked for are the non-empty stripped ones; names that are clean already stay as they are. */
  lemma {:induction false} CleanGroupsExactly(groups: seq<string>)
    ensures forall g :: g in CleanGroups(groups) <==> g != "" && Asked(groups, g)
    ensures GroupNames(groups) ==> CleanGroups(groups) == groups
  {
    hide Strip, NameBody, GroupNames;
    if groups == [] {
      NothingAsked();
    } else {
      hide Asked;
      CleanGroupsExactly(groups[1..]);
      forall g ensures Asked(groups, g) <==> Strip(groups[0]) == g || Asked(groups[1..], g) {
        AskedParts(groups, g);
      }
      if GroupNames(groups) {
        GroupNamesParts(groups);
        FirstNotEmpty(groups);
        assert groups == [groups[0]] + groups[1..];
      }
    }
  }

  lemma NothingAsked()
    ensures forall g :: !Asked([], g)
  {
  }

  lemma FirstNotEmpty(groups: seq<string>)
    requires groups != [] && GroupNames(groups)
    ensures groups[0] != ""
  {
    assert NameBody(groups[0]);
  }

  // --- The service ---------------------------------------------------------

  class UserService {
    /** The text of the ocpasswd file, if there is one. */
    var passwd: Option<string>

    /** Nothing stands for the ValueError of an invalid group. */
    static method Cleaned(groups: seq<string>) returns (clean: Option<seq<string>>)
      ensures clean.Some? <==> AllValid(CleanGroups(groups))
      ensures clean.Some? ==> clean.value == CleanGroups(groups) && GroupNames(clean.value)
    {
      hide ValidName, NameBody, Strip;
      var done: seq<string> := [];
      for i := 0 to |groups|
        invariant done + CleanGroups(groups[i..]) == CleanGroups(groups)
        invariant AllValid(done) && GroupNames(done)
      {
        assert groups[i..][0] == groups[i] && groups[i..][1..] == groups[i + 1..];
        var stripped := Strip(groups[i]);
        assert CleanGroups(groups[i..]) == (if stripped != "" then [stripped] else []) + CleanGroups(groups[i + 1..]);
        if stripped != "" {
          if !ValidName(stripped) {
            assert CleanGroups(groups)[|done|] == stripped;
            return None;
          }
          StrippedName(groups[i]);
          done := done + [stripped];
        }
      }
      clean := Some(done);
    }

    /** False stands for the ValueError of an invalid name; nothing is written then. */
    method SetUserGroups(username: string, groups: seq<string>) returns (ok: bool)
      modifies this
      ensures ok <==> ValidName(username) && AllValid(CleanGroups(groups))
      ensures passwd == if ok then NewFile(old(passwd), username, CleanGroups(groups)) else old(passwd)
      ensures ok ==> GroupNames(CleanGroups(groups))
    {
      hide ValidName, AllValid, GroupNames, CleanGroups, Render, Parse, SplitLines;
      if !ValidName(username) {
        return false;
      }
      var clean := Cleaned(groups);
      if clean.None? {
        return false;
      }
      var lines := LinesOf(passwd);
      var changed := false;
      var next: seq<string> := [];
      for i := 0 to |lines|
        invariant next == RewriteLines(lines, username, clean.value)[..i]
        invariant changed <==> Mentioned(lines[..i], username)
      {
        var record := Parse(lines[i]);
        assert forall j :: 0 <= j < i ==> lines[..i + 1][j] == lines[..i][j];
        assert lines[..i + 1][i] == lines[i];
        if record.username != username {
          next := next + [lines[i]];
        } else {
          next := next + [Render(record, clean.value)];
          changed := true;
        }
      }
      assert lines[..|lines|] == lines && next == RewriteLines(lines, username, clean.value);
      if changed {
        passwd := Some(Terminated(next));
      }
      return true;
    }

    /** Nothing stands for the ValueError of an invalid name. */
    method ReadUserGroups(username: string) returns (groups: Option<seq<string>>)
      ensures groups.Some? <==> ValidName(username)
      ensures
        var r := Lookup(LinesOf(passwd), username);
        ValidName(username) ==> groups == Some(if r.Some? then r.value.groups else [])
    {
      hide Parse, Listed;
      if !ValidName(username) {
        return None;
      }
      var lines := LinesOf(passwd);
      for i := 0 to |lines|
        invariant Lookup(lines, username) == Lookup(lines[i..], username)
      {
        if Listed(lines[i]) && Matches(lines[i], username) {
          return Some(Parse(lines[i]).groups);
        }
        assert lines[i..][1..] == lines[i + 1..];
      }
      return Some([]);
    }
  }
}
