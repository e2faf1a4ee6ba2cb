/**
  Groups in the ocpasswd file (services/users.py, `set_user_groups` and the
  record parser and printer around it): `name:groups:hash` or `name:hash`, with
  a leading exclamation mark for what is locked.
 */
module Ocpasswd {
  import opened Options
  import opened Text
  import opened Lines

  predicate IsBang(ch: char) {
    ch == '!'
  }

  predicate IsColon(ch: char) {
    ch == ':'
  }

  predicate IsComma(ch: char) {
    ch == ',' || ch == ';'
  }

  predicate Starts(s: string, ch: char) {
    s != "" && s[0] == ch
  }

  // --- Names ---------------------------------------------------------------

  predicate NameChar(ch: char) {
    'A' <= ch <= 'Z' || 'a' <= ch <= 'z' || IsDigit(ch) || ch == '_' || ch == '.' || ch == '@' || ch == '-'
  }

  predicate NameBody(s: string) {
    1 <= |s| <= 64 && s != "." && s != ".." && forall i :: 0 <= i < |s| ==> NameChar(s[i])
  }

  /** The pattern's `$` also matches in front of one trailing line feed. */
  predicate ValidName(s: string) {
    NameBody(s) || (s != "" && s[|s| - 1] == '\n' && NameBody(s[..|s| - 1]))
  }

  /** A stripped name has no line feed left to hide behind that. */
  lemma StrippedName(s: string)
    requires ValidName(Strip(s))
    ensures NameBody(Strip(s))
  {
    TrimIsNothingIff(s, Blank);
    assert Blank('\n');
  }

  // --- Records -------------------------------------------------------------

  datatype Record = Record(username: string, fields: seq<string>, disabled: bool, groups: seq<string>)

  predicate LooksLikeHash(value: string) {
    var stripped := TrimLeft(value, IsBang);
    stripped != "" && (stripped[0] == '$' || |stripped| > 32)
  }

  predicate LegacyLock(value: string) {
    Starts(value, '!') && !LooksLikeHash(value)
  }

  /** Whether the second field is read as the list of groups. */
  predicate HasGroupField(fields: seq<string>) {
    |fields| >= 3 && !LegacyLock(fields[2]) && !LooksLikeHash(fields[1])
  }

  /** Single characters stand for "no group". */
  function Named(parts: seq<string>): seq<string> {
    if parts == [] then []
    else (if |Strip(parts[0])| > 1 then [Strip(parts[0])] else []) + Named(parts[1..])
  }

  function ParseGroups(value: string): seq<string> {
    Named(Split(TrimLeft(value, IsBang), IsComma))
  }

  predicate Disabled(fields: seq<string>) {
    exists i :: 0 <= i < |fields| && Starts(fields[i], '!')
  }

  function ParseFields(fields: seq<string>): Record
    requires fields != []
  {
    Record(TrimLeft(fields[0], IsBang), fields, Disabled(fields),
           ParseGroups(if HasGroupField(fields) then fields[1] else ""))
  }

  function Parse(line: string): (r: Record)
    ensures r.fields != []
  {
    ParseFields(Split(line, IsColon))
  }

  function GroupText(groups: seq<string>): string {
    if groups == [] then "" else Join(groups, ',')
  }

  /** The fields with the group text put in, or the group field taken out. */
  function NewFields(fields: seq<string>, text: string): (r: seq<string>)
    ensures fields != [] ==> r != [] && r[0] == fields[0]
  {
    if |fields| <= 1 then fields
    else if |fields| == 2 then
      if text != "" then [fields[0], text, fields[1]] else fields
    else if text == "" then [fields[0]] + fields[2..]
    else fields[1 := text]
  }

  function Render(r: Record, groups: seq<string>): string
    requires r.fields != []
  {
    Join(NewFields(r.fields, GroupText(groups)), ':')
  }

  // --- A rewritten record, read again --------------------------------------

  ghost predicate GroupNames(groups: seq<string>) {
    forall i :: 0 <= i < |groups| ==> NameBody(groups[i])
  }

  predicate NameOrComma(ch: char) {
    NameChar(ch) || ch == ','
  }

  predicate NotNameOrComma(ch: char) {
    !NameOrComma(ch)
  }

  lemma {:induction false} GroupTextChars(groups: seq<string>)
    requires GroupNames(groups) && groups != []
    ensures GroupText(groups) != "" && Free(GroupText(groups), NotNameOrComma)
    ensures NameChar(GroupText(groups)[0])
    decreases |groups|
  {
    assert NameBody(groups[0]);
    if |groups| > 1 {
      GroupTextChars(groups[1..]);
      var t := Join(groups[1..], ',');
      assert GroupText(groups) == groups[0] + [','] + t;
    }
  }

  lemma NameIsStripped(s: string)
    requires NameBody(s)
    ensures Strip(s) == s
  {
    TrimIsNothingIff(s, Blank);
  }

  lemma GroupNamesParts(groups: seq<string>)
    requires GroupNames(groups) && groups != []
    ensures Strip(groups[0]) == groups[0] && GroupNames(groups[1..])
  {
    NameIsStripped(groups[0]);
  }

  predicate AllLong(groups: seq<string>) {
    forall i :: 0 <= i < |groups| ==> |groups[i]| >= 2
  }

  lemma AllLongParts(groups: seq<string>)
    requires groups != []
    ensures AllLong(groups) <==> |groups[0]| >= 2 && AllLong(groups[1..])
  {
    assert groups == [groups[0]] + groups[1..];
  }

  lemma NamedParts(groups: seq<string>)
    requires groups != [] && Strip(groups[0]) == groups[0]
    ensures Named(groups) == (if |groups[0]| > 1 then [groups[0]] else []) + Named(groups[1..])
  {
    hide Strip;
  }

  lemma {:induction false} NamedKeepsLong(groups: seq<string>)
    requires GroupNames(groups)
    ensures if AllLong(groups) then Named(groups) == groups else |Named(groups)| < |groups|
  {
    hide GroupNames, Strip, AllLong, Named;
    if groups == [] {
      NamedNothing();
    } else {
      GroupNamesParts(groups);
      AllLongParts(groups);
      NamedParts(groups);
      NamedKeepsLong(groups[1..]);
      assert groups == [groups[0]] + groups[1..];
    }
  }

  /** Joined group names come back as they were, but for the one-letter ones. */
  lemma GroupsRoundTripIff(groups: seq<string>)
    requires GroupNames(groups) && groups != []
    ensures ParseGroups(GroupText(groups)) == groups <==> AllLong(groups)
  {
    GroupTextChars(groups);
    forall i | 0 <= i < |groups| ensures Free(groups[i], IsComma) {
      assert NameBody(groups[i]);
    }
    SplitJoin(groups, ',', IsComma);
    NamedKeepsLong(groups);
  }

  lemma NamedNothing()
    ensures Named([]) == [] && AllLong([])
  {
    hide Strip;
  }

  lemma NothingStripped()
    ensures Strip("") == ""
  {
  }

  lemma NothingSplit()
    ensures TrimLeft("", IsBang) == "" && Split("", IsComma) == [""]
  {
  }

  lemma ParseGroupsOfNothing()
    ensures ParseGroups("") == []
  {
    hide Strip, Split, TrimLeft, Named;
    NothingSplit();
    NothingStripped();
    NamedNothing();
    NamedParts([""]);
    assert [""][1..] == [];
  }

  /** What a rewrite needs to know of the text it puts in. */
  ghost predicate PlainText(t: string) {
    t != "" && !Starts(t, '!') && (LooksLikeHash(t) <==> |t| > 32)
  }

  lemma GroupTextIsPlain(groups: seq<string>)
    requires GroupNames(groups) && groups != []
    ensures PlainText(GroupText(groups))
  {
    hide GroupText;
    GroupTextChars(groups);
    var g := GroupText(groups);
    assert !IsBang(g[0]) && TrimLeft(g, IsBang) == g && g[0] != '$';
  }

  /** The field that follows the groups once they are written. */
  function AfterGroups(fields: seq<string>): string
    requires |fields| >= 2
  {
    if |fields| == 2 then fields[1] else fields[2]
  }

  lemma WrittenSlots(fields: seq<string>, t: string)
    requires |fields| >= 2 && t != ""
    ensures
      var g := NewFields(fields, t);
      && |g| >= 3 && g[0] == fields[0] && g[1] == t && g[2] == AfterGroups(fields)
      && g[2..] == (if |fields| == 2 then [fields[1]] else fields[2..])
      && (HasGroupField(g) <==> !LegacyLock(AfterGroups(fields)) && !LooksLikeHash(t))
  {
    hide LegacyLock, LooksLikeHash;
  }

  /**
    Which groups a rewritten record reads back: the ones written, if and only if
    each has two letters, they fit into what is not taken for a hash, and what
    follows is not a bare lock.
   */
  lemma GroupsReadBackIff(fields: seq<string>, groups: seq<string>)
    requires |fields| >= 2 && GroupNames(groups) && groups != []
    ensures ParseFields(NewFields(fields, GroupText(groups))).groups == groups
       <==> AllLong(groups) && |GroupText(groups)| <= 32 && !LegacyLock(AfterGroups(fields))
  {
    GroupTextIsPlain(groups);
    GroupsRoundTripIff(groups);
    ParseGroupsOfNothing();
    WrittenSlots(fields, GroupText(groups));
    hide ParseGroups, LegacyLock, LooksLikeHash, GroupText, Disabled, NewFields, HasGroupField, GroupNames;
  }

  /** Taking all groups away reads back as no groups, unless the field behind them now stands in their place and is one. */
  lemma ClearedReadsBackIff(fields: seq<string>)
    requires |fields| >= 2
    ensures ParseFields(NewFields(fields, "")).groups == []
       <==> |fields| <= 3 || LegacyLock(fields[3]) || LooksLikeHash(fields[2]) || ParseGroups(fields[2]) == []
  {
    hide ParseGroups, LegacyLock, LooksLikeHash, Disabled;
    ParseGroupsOfNothing();
    assert |fields| > 3 ==> NewFields(fields, "")[1] == fields[2] && NewFields(fields, "")[2] == fields[3];
  }

  lemma DisabledParts(fields: seq<string>)
    requires |fields| >= 2
    ensures Disabled(fields) <==> Starts(fields[0], '!') || Starts(fields[1], '!') || Disabled(fields[2..])
  {
    if i :| 2 <= i < |fields| && Starts(fields[i], '!') {
      assert fields[2..][i - 2] == fields[i];
    }
  }

  lemma DisabledFront(name: string, rest: seq<string>)
    ensures Disabled([name] + rest) <==> Starts(name, '!') || Disabled(rest)
  {
    var g := [name] + rest;
    assert g[0] == name && forall i :: 0 <= i < |rest| ==> g[i + 1] == rest[i];
    if i :| 0 < i < |g| && Starts(g[i], '!') {
      assert rest[i - 1] == g[i];
    }
  }

  /** The lock survives, unless the field that is overwritten was the only one carrying it. */
  lemma LockKeptIff(fields: seq<string>, t: string)
    requires fields != [] && !Starts(t, '!')
    ensures ParseFields(NewFields(fields, t)).username == ParseFields(fields).username
    ensures ParseFields(NewFields(fields, t)).disabled == ParseFields(fields).disabled
       <==> (|fields| >= 3 && Starts(fields[1], '!') ==> Starts(fields[0], '!') || Disabled(fields[2..]))
  {
    hide ParseGroups, HasGroupField, Disabled;
    var g := NewFields(fields, t);
    if |fields| >= 2 {
      DisabledParts(fields);
      if t != "" {
        WrittenSlots(fields, t);
        DisabledParts(g);
        if |fields| == 2 {
          DisabledFront(fields[1], []);
          DisabledNothing();
          assert fields[2..] == [] && [fields[1]] + [] == [fields[1]];
        }
      } else if |fields| >= 3 {
        DisabledFront(fields[0], fields[2..]);
      }
    }
  }

  lemma DisabledNothing()
    ensures !Disabled([])
  {
  }

  /** Where the password hash stands, by the parser's own reading. */
  function Password(fields: seq<string>): string
    requires |fields| >= 2
  {
    if HasGroupField(fields) then fields[2] else fields[1]
  }

  /** A name, then maybe groups, then a hash that looks like one; a lock is not on the groups alone. */
  ghost predicate WellFormed(fields: seq<string>) {
    && (|fields| == 2 || (|fields| == 3 && HasGroupField(fields)))
    && LooksLikeHash(AfterGroups(fields))
    && (|fields| == 3 && Starts(fields[1], '!') ==> Starts(fields[0], '!') || Disabled(fields[2..]))
  }

  /** The lists of groups the format can hold. */
  ghost predicate Storable(groups: seq<string>) {
    GroupNames(groups) && AllLong(groups) && |GroupText(groups)| <= 32
  }

  /** Rewriting a well-formed record sets its groups and leaves name, lock and hash alone. */
  lemma AccountKept(fields: seq<string>, groups: seq<string>)
    requires WellFormed(fields) && Storable(groups)
    ensures
      var g := NewFields(fields, GroupText(groups));
      && WellFormed(g)
      && ParseFields(g).groups == groups
      && ParseFields(g).username == ParseFields(fields).username
      && ParseFields(g).disabled == ParseFields(fields).disabled
      && Password(g) == Password(fields)
  {
    if groups == [] {
      ClearedReadsBackIff(fields);
    } else {
      GroupTextIsPlain(groups);
      GroupsReadBackIff(fields, groups);
    }
    assert GroupText(groups) == "" || PlainText(GroupText(groups));
    hide GroupText, GroupNames, ParseGroups, HasGroupField, Disabled, LooksLikeHash, NewFields, PlainText;
    LockKeptIff(fields, GroupText(groups));
    StillWellFormed(fields, GroupText(groups));
  }

  lemma StillWellFormed(fields: seq<string>, t: string)
    requires WellFormed(fields) && |t| <= 32 && (t == "" || PlainText(t))
    ensures WellFormed(NewFields(fields, t))
    ensures Password(NewFields(fields, t)) == Password(fields)
  {
    var g := NewFields(fields, t);
    if t != "" {
      WrittenSlots(fields, t);
      assert !LegacyLock(AfterGroups(fields));
      hide LooksLikeHash, Disabled, NewFields, LegacyLock;
      assert |g| == 3 && AfterGroups(g) == AfterGroups(fields);
    } else {
      hide LooksLikeHash, Disabled, LegacyLock;
      assert |g| == 2 && g[1] == AfterGroups(fields);
    }
  }

  /**
    Whether the password is still in the line, for any record of two fields or
    more and any text: it is unless it stands in the second of three or more
    fields, where it is written over or dropped, and nothing repeats it.
   */
  lemma PasswordSurvivesIff(fields: seq<string>, t: string)
    requires |fields| >= 2
    ensures Password(fields) in NewFields(fields, t)
       <==> || |fields| == 2 || HasGroupField(fields)
            || Password(fields) == fields[0] || Password(fields) in fields[2..]
            || (t != "" && Password(fields) == t)
  {
    hide HasGroupField;
    var p := Password(fields);
    var g := NewFields(fields, t);
    if |fields| == 2 {
      assert HasGroupField(fields) ==> |fields| >= 3 by { GroupFieldIsSecond(fields); }
      assert g[|g| - 1] == fields[1] == p;
    } else {
      assert g == (if t == "" then [fields[0]] else [fields[0], t]) + fields[2..];
      assert HasGroupField(fields) ==> p == fields[2] == fields[2..][0];
    }
  }

  lemma GroupFieldIsSecond(fields: seq<string>)
    ensures HasGroupField(fields) ==> |fields| >= 3
  {
  }

  /** So a hash in front of anything else never survives by itself, whether groups are set or cleared. */
  lemma HashOverwritten(fields: seq<string>, groups: seq<string>)
    requires |fields| >= 3 && LooksLikeHash(fields[1]) && Storable(groups)
    ensures fields[1] in NewFields(fields, GroupText(groups)) <==> fields[1] == fields[0] || fields[1] in fields[2..]
  {
    if groups != [] {
      GroupTextIsPlain(groups);
    }
    PasswordSurvivesIff(fields, GroupText(groups));
    hide GroupText, GroupNames, LooksLikeHash, NewFields, AllLong;
  }

  /** What stands in the file for these fields parses back into them. */
  lemma LineOf(fields: seq<string>)
    requires fields != [] && forall i :: 0 <= i < |fields| ==> Free(fields[i], IsColon)
    ensures Parse(Join(fields, ':')) == ParseFields(fields)
  {
    hide ParseFields;
    SplitJoin(fields, ':', IsColon);
  }

  lemma StorableText(groups: seq<string>)
    requires Storable(groups)
    ensures !Starts(GroupText(groups), '!')
  {
    if groups != [] {
      GroupTextIsPlain(groups);
    }
  }

  lemma Flags(fields: seq<string>)
    requires fields != []
    ensures ParseFields(fields).fields == fields && ParseFields(fields).disabled == Disabled(fields)
  {
    hide ParseGroups, HasGroupField, Disabled;
  }

  /** A line whose lock stands on the groups alone loses it with them. */
  lemma LockLostFor(name: string, marked: string, hash: string, groups: seq<string>)
    requires Free(name, IsColon) && Free(marked, IsColon) && Free(hash, IsColon)
    requires !Starts(name, '!') && Starts(marked, '!') && !Starts(hash, '!') && Storable(groups)
    ensures
      var r := Parse(Join([name, marked, hash], ':'));
      r.disabled && r.fields == [name, marked, hash] && !ParseFields(NewFields(r.fields, GroupText(groups))).disabled
  {
    hide *;
    var fields := [name, marked, hash];
    LineOf(fields);
    Flags(fields);
    StorableText(groups);
    OnlyMiddleLocked(name, marked, hash);
    assert fields[2..] == [hash];
    LockKeptIff(fields, GroupText(groups));
  }

  lemma OnlyMiddleLocked(name: string, marked: string, hash: string)
    requires Starts(marked, '!') && !Starts(hash, '!')
    ensures Disabled([name, marked, hash]) && !Disabled([hash])
  {
    hide Starts;
    assert [name, marked, hash][1] == marked;
  }

  lemma HashLostFor(name: string, hash: string, lock: string, groups: seq<string>)
    requires Free(name, IsColon) && Free(hash, IsColon) && Free(lock, IsColon)
    requires LooksLikeHash(hash) && hash != name && hash != lock && Storable(groups)
    ensures
      var r := Parse(Join([name, hash, lock], ':'));
      r.fields == [name, hash, lock] && hash !in NewFields(r.fields, GroupText(groups))
  {
    hide *;
    var fields := [name, hash, lock];
    LineOf(fields);
    Flags(fields);
    assert fields[2..] == [lock] && fields[1] == hash;
    HashOverwritten(fields, groups);
  }

  lemma SamplesFree()
    ensures Free("bob", IsColon) && Free("!admins", IsColon) && Free("$5$x", IsColon) && Free("!", IsColon)
    ensures "bob"[0] == 'b' && "!admins"[0] == '!' && "$5$x"[0] == '$' && "!"[0] == '!'
  {
  }

  lemma SampleGroups()
    ensures Storable(["staff"])
  {
    assert "staff"[0] == 's' && GroupText(["staff"]) == "staff";
  }

  lemma SampleHash()
    ensures LooksLikeHash("$5$x")
  {
    assert "$5$x"[0] == '$' && TrimLeft("$5$x", IsBang) == "$5$x";
  }

  /** It happens: the line says the account is locked, and after setting its groups it no longer does. */
  lemma LockLost()
    ensures
      var r := Parse(Join(["bob", "!admins", "$5$x"], ':'));
      Storable(["staff"]) && r.fields != [] && r.disabled && !ParseFields(NewFields(r.fields, GroupText(["staff"]))).disabled
  {
    hide Free, Storable, Parse, Join, ParseFields, NewFields, GroupText;
    SamplesFree();
    SampleGroups();
    LockLostFor("bob", "!admins", "$5$x", ["staff"]);
  }

  /** It happens: a hash with an old-style lock behind it is replaced by the groups. */
  lemma HashLost()
    ensures
      var r := Parse(Join(["bob", "$5$x", "!"], ':'));
      && Storable(["staff"]) && LooksLikeHash("$5$x")
      && "$5$x" in r.fields && "$5$x" !in NewFields(r.fields, GroupText(["staff"]))
  {
    hide Free, Storable, Parse, Join, NewFields, GroupText, LooksLikeHash;
    SamplesFree();
    SampleGroups();
    SampleHash();
    assert "$5$x" != "bob" && "$5$x" != "!";
    HashLostFor("bob", "$5$x", "!", ["staff"]);
    assert ["bob", "$5$x", "!"][1] == "$5$x";
  }

  /** And clearing the groups of that line drops the hash as well: what is left is the lock. */
  lemma HashLostByClearing()
    ensures
      var r := Parse(Join(["bob", "$5$x", "!"], ':'));
      "$5$x" in r.fields && "$5$x" !in NewFields(r.fields, GroupText([])) && Render(r, []) == Join(["bob", "!"], ':')
  {
    hide Free, Storable, Parse, Join, GroupText, LooksLikeHash;
    SamplesFree();
    NothingStorable();
    SampleHash();
    assert "$5$x" != "bob" && "$5$x" != "!";
    HashLostFor("bob", "$5$x", "!", []);
    assert ["bob", "$5$x", "!"][1] == "$5$x";
    assert ["bob", "$5$x", "!"][2..] == ["!"] && ["bob"] + ["!"] == ["bob", "!"];
  }

  lemma NothingStorable()
    ensures Storable([]) && GroupText([]) == ""
  {
  }

  lemma BareLock()
    ensures LegacyLock("!")
  {
    assert "!"[0] == '!' && TrimLeft("!", IsBang) == "";
  }

  lemma LockHidesGroups(name: string, password: string)
    ensures !HasGroupField([name, password, "!"]) && Password([name, password, "!"]) == password
  {
    hide LegacyLock, LooksLikeHash;
    BareLock();
  }

  /** Any other password is lost in front of a bare lock just the same, whatever the groups are. */
  lemma PlainPasswordLost(name: string, password: string, t: string)
    requires password != name && password != "!" && password != t
    ensures password !in NewFields([name, password, "!"], t)
  {
    hide HasGroupField, Password, NewFields;
    LockHidesGroups(name, password);
    var fields := [name, password, "!"];
    assert fields[2..] == ["!"];
    PasswordSurvivesIff(fields, t);
  }
}
