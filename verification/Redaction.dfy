/**
  Masking secrets in configuration trees shown to the panel
  (services/secrets.py, `redact_value`) and putting them back into what the
  panel returns (api/routes_config.py, `_restore_masked_values`).
 */
module Redaction {
  import opened Options

  datatype Tree =
    | Null
    | Flag(b: bool)
    | Number(n: int)
    | Text(s: string)
    | List(items: seq<Tree>)
    | Mapping(entries: seq<Entry>)

  datatype Entry = Entry(key: string, value: Tree)

  /** Which keys name secrets is decided by a pattern that is not part of this model. */
  type SecretKeys = string -> bool

  const STARS := "***"
  const PREFIX := "${SECRET:"
  const MASK := "${SECRET:***}"

  // --- Secret references in strings ----------------------------------------

  /** Position of the first closing brace at or after `from`, or the length. */
  function Brace(s: string, from: nat): (j: nat)
    requires from <= |s|
    ensures from <= j <= |s| && (j < |s| ==> s[j] == '}')
    ensures forall k :: from <= k < j ==> s[k] != '}'
    decreases |s| - from
  {
    if from == |s| || s[from] == '}' then from else Brace(s, from + 1)
  }

  /** The length of the reference `s` begins with, or 0: the prefix, a non-empty name, a brace. */
  function RefLength(s: string): (n: nat)
    ensures n <= |s| && (n > 0 ==> n >= |PREFIX| + 2)
  {
    if PREFIX <= s then
      var j := Brace(s, |PREFIX|);
      if |PREFIX| < j < |s| then j + 1 else 0
    else 0
  }

  predicate IsReference(s: string) {
    s != "" && RefLength(s) == |s|
  }

  /** Every reference replaced by the mask, left to right. */
  function Substitute(s: string): string
    decreases |s|
  {
    if s == "" then ""
    else if RefLength(s) > 0 then MASK + Substitute(s[RefLength(s)..])
    else [s[0]] + Substitute(s[1..])
  }

  /** The references of a string, left to right: what the pattern matches. */
  function References(s: string): seq<string>
    decreases |s|
  {
    if s == "" then []
    else if RefLength(s) > 0 then [s[..RefLength(s)]] + References(s[RefLength(s)..])
    else References(s[1..])
  }

  lemma MaskIsReference()
    ensures IsReference(MASK) && RefLength(MASK) == |MASK|
  {
    assert PREFIX <= MASK;
    assert MASK[9] == '*' && MASK[10] == '*' && MASK[11] == '*' && MASK[12] == '}';
    assert Brace(MASK, |PREFIX|) == 12;
  }

  /** A string that starts with the mask starts with a reference that is the mask. */
  lemma MaskInFront(s: string)
    requires MASK <= s
    ensures RefLength(s) == |MASK|
  {
    assert s[9] == MASK[9] == '*' && s[10] == MASK[10] == '*' && s[11] == MASK[11] == '*' && s[12] == MASK[12] == '}';
    assert Brace(s, |PREFIX|) == 12;
  }

  /** Whatever comes out shorter than the mask went through unchanged. */
  lemma {:induction false} ShortIsUnchanged(s: string)
    ensures Substitute(s) == s || |Substitute(s)| >= |MASK|
    decreases |s|
  {
    hide RefLength;
    if s != "" && RefLength(s) == 0 {
      ShortIsUnchanged(s[1..]);
      assert s == [s[0]] + s[1..];
    }
  }

  /** A string is shown as the bare mask exactly when it is one whole reference. */
  lemma SubstituteIsMaskIff(s: string)
    ensures Substitute(s) == MASK <==> IsReference(s)
  {
    hide RefLength;
    var n := RefLength(s);
    if n > 0 {
      assert Substitute(s) == MASK + Substitute(s[n..]);
      if s[n..] == "" {
        assert n == |s|;
      } else {
        assert Substitute(s[n..]) != "";
      }
    } else if s != "" {
      MaskIsReference();
      ShortIsUnchanged(s[1..]);
      assert s == [s[0]] + s[1..];
    }
  }

  /** With a reference in front: that reference has to be the mask, and the rest unchanged. */
  lemma FrontUnchangedIff(s: string)
    requires RefLength(s) > 0
    ensures Substitute(s) == s
       <==> s[..RefLength(s)] == MASK && Substitute(s[RefLength(s)..]) == s[RefLength(s)..]
  {
    hide RefLength;
    var n := RefLength(s);
    var rest := s[n..];
    var r := Substitute(s);
    assert r[..|MASK|] == MASK && r[|MASK|..] == Substitute(rest);
    assert s == s[..n] + rest;
    if r == s {
      MaskInFront(s);
    }
  }

  /** The substitution leaves a string alone exactly when every reference in it is the mask itself. */
  lemma {:induction false} UnchangedIff(s: string)
    ensures Substitute(s) == s <==> forall r :: r in References(s) ==> r == MASK
    decreases |s|
  {
    hide RefLength;
    if s != "" {
      var n := RefLength(s);
      if n > 0 {
        UnchangedIff(s[n..]);
        FrontUnchangedIff(s);
        assert References(s) == [s[..n]] + References(s[n..]);
        assert forall r :: r in References(s) <==> r == s[..n] || r in References(s[n..]);
        assert s[..n] in References(s);
        assert Substitute(s) == s <==> s[..n] == MASK && Substitute(s[n..]) == s[n..];
      } else {
        UnchangedIff(s[1..]);
        assert s == [s[0]] + s[1..] && Substitute(s)[1..] == Substitute(s[1..]) && References(s) == References(s[1..]);
      }
    }
  }

  // --- Masking -------------------------------------------------------------

  /** `value not in {None, "", False}`: zero counts as False. */
  predicate Maskable(v: Tree) {
    match v
    case Null => false
    case Flag(b) => b
    case Number(n) => n != 0
    case Text(s) => s != ""
    case List(_) => false
    case Mapping(_) => false
  }

  predicate Secret(secret: SecretKeys, key: Option<string>) {
    key.Some? && secret(key.value)
  }

  function Redact(secret: SecretKeys, v: Tree, key: Option<string>): Tree
    decreases v
  {
    match v
    case Mapping(entries) =>
      Mapping(seq(|entries|, i requires 0 <= i < |entries| =>
        Entry(entries[i].key, Redact(secret, entries[i].value, Some(entries[i].key)))))
    case List(items) =>
      // the items are redacted without the key the list stands under
      List(seq(|items|, i requires 0 <= i < |items| => Redact(secret, items[i], None)))
    case _ =>
      if Secret(secret, key) && Maskable(v) then Text(STARS)
      else if v.Text? then Text(Substitute(v.s))
      else v
  }

  // --- Restoring -----------------------------------------------------------

  /** `mapping.get(key)`. */
  function Get(entries: seq<Entry>, key: string): Tree {
    if entries == [] then Null else if entries[0].key == key then entries[0].value else Get(entries[1..], key)
  }

  predicate IsMask(v: Tree) {
    v.Text? && (v.s == STARS || v.s == MASK)
  }

  function Restore(secret: SecretKeys, v: Tree, was: Tree, key: Option<string>): Tree
    decreases v
  {
    if Secret(secret, key) && IsMask(v) then was
    else
      match v
      case Mapping(entries) =>
        var olds := if was.Mapping? then was.entries else [];
        Mapping(seq(|entries|, i requires 0 <= i < |entries| =>
          Entry(entries[i].key, Restore(secret, entries[i].value, Get(olds, entries[i].key), Some(entries[i].key)))))
      case List(items) =>
        // by position, under the key of the list
        var olds := if was.List? then was.items else [];
        List(seq(|items|, i requires 0 <= i < |items| =>
          Restore(secret, items[i], if i < |olds| then olds[i] else Null, key)))
      case Text(s) => if s == MASK && was.Text? then was else v
      case _ => v
  }

  // --- Restoring undoes masking --------------------------------------------

  ghost predicate KeysDistinct(entries: seq<Entry>) {
    forall i, j :: 0 <= i < j < |entries| ==> entries[i].key != entries[j].key
  }

  /** A mapping has each key once, all the way down. */
  ghost predicate Wellformed(v: Tree)
    decreases v
  {
    match v
    case Mapping(entries) =>
      KeysDistinct(entries) && forall i :: 0 <= i < |entries| ==> Wellformed(entries[i].value)
    case List(items) => forall i :: 0 <= i < |items| ==> Wellformed(items[i])
    case _ => true
  }

  /** One whole reference, or a string whose references (if any) are all the mask already. */
  predicate Undamaged(s: string) {
    IsReference(s) || forall r :: r in References(s) ==> r == MASK
  }

  /** Every string that is not masked because of its key is undamaged. */
  ghost predicate WholeReferences(secret: SecretKeys, v: Tree, key: Option<string>)
    decreases v
  {
    match v
    case Mapping(entries) =>
      forall i :: 0 <= i < |entries| ==> WholeReferences(secret, entries[i].value, Some(entries[i].key))
    case List(items) => forall i :: 0 <= i < |items| ==> WholeReferences(secret, items[i], None)
    case Text(s) => (Secret(secret, key) && s != "") || Undamaged(s)
    case _ => true
  }

  lemma {:induction false} GetFinds(entries: seq<Entry>, i: nat)
    requires KeysDistinct(entries) && i < |entries|
    ensures Get(entries, entries[i].key) == entries[i].value
  {
    if i > 0 {
      assert entries[0].key != entries[i].key;
      GetFinds(entries[1..], i - 1);
    }
  }

  /**
    Restoring the redacted tree against the original gives the original back,
    if and only if secret references occur only as whole strings. Lists change
    nothing about that, although redaction drops their key and restoring keeps it.
   */
  lemma {:induction false} RestoreUndoesRedactIff(secret: SecretKeys, v: Tree, key: Option<string>, under: Option<string>)
    requires Wellformed(v) && (under == key || key == None)
    ensures Restore(secret, Redact(secret, v, key), v, under) == v <==> WholeReferences(secret, v, key)
    decreases v
  {
    var r := Restore(secret, Redact(secret, v, key), v, under);
    match v
    case Mapping(entries) =>
      forall i | 0 <= i < |entries|
        ensures r.entries[i] == entries[i] <==> WholeReferences(secret, entries[i].value, Some(entries[i].key))
      {
        GetFinds(entries, i);
        RestoreUndoesRedactIff(secret, entries[i].value, Some(entries[i].key), Some(entries[i].key));
      }
      assert r.entries == entries <==> forall i :: 0 <= i < |entries| ==> r.entries[i] == entries[i];
    case List(items) =>
      forall i | 0 <= i < |items| ensures r.items[i] == items[i] <==> WholeReferences(secret, items[i], None) {
        RestoreUndoesRedactIff(secret, items[i], None, under);
      }
      assert r.items == items <==> forall i :: 0 <= i < |items| ==> r.items[i] == items[i];
    case Text(s) =>
      TextComesBackIff(secret, s, key, under);
    case _ =>
  }

  lemma TextComesBackIff(secret: SecretKeys, s: string, key: Option<string>, under: Option<string>)
    requires under == key || key == None
    ensures Restore(secret, Redact(secret, Text(s), key), Text(s), under) == Text(s)
       <==> (Secret(secret, key) && s != "") || Undamaged(s)
  {
    hide IsReference, References, Substitute;
    SubstituteIsMaskIff(s);
    UnchangedIff(s);
    ShortIsUnchanged(s);
    assert Undamaged(s) <==> Substitute(s) == MASK || Substitute(s) == s;
    var shown := Redact(secret, Text(s), key);
    if Secret(secret, key) && s != "" {
      assert shown == Text(STARS);
    } else {
      assert shown == Text(Substitute(s));
    }
  }

  // --- Nothing secret is shown ---------------------------------------------

  lemma StartsWithDollar(s: string)
    ensures RefLength(s) > 0 ==> s != "" && s[0] == '$' && Substitute(s)[0] == '$'
  {
    assert MASK[0] == '$' && PREFIX[0] == '$';
    hide Brace;
  }

  lemma PlainStep(s: string)
    requires Substitute(s) != "" && Substitute(s)[0] != '$'
    ensures s != "" && Substitute(s) == [s[0]] + Substitute(s[1..])
  {
    hide RefLength;
    StartsWithDollar(s);
  }

  /** What comes out before any dollar sign went in just like that. */
  lemma {:induction false} PlainFront(s: string, k: nat)
    requires k <= |Substitute(s)| && forall i :: 0 <= i < k ==> Substitute(s)[i] != '$'
    ensures k <= |s| && Substitute(s) == s[..k] + Substitute(s[k..])
  {
    hide RefLength, Substitute;
    if k == 0 {
      assert s[0..] == s;
    } else {
      PlainStep(s);
      var rest, r := s[1..], Substitute(s[1..]);
      assert forall i :: 0 <= i < k - 1 ==> r[i] == Substitute(s)[i + 1];
      PlainFront(rest, k - 1);
      assert rest[k - 1..] == s[k..] && [s[0]] + rest[..k - 1] == s[..k];
      assert [s[0]] + (rest[..k - 1] + Substitute(s[k..])) == [s[0]] + rest[..k - 1] + Substitute(s[k..]);
    }
  }

  lemma {:induction false} NoBraceNoReference(s: string)
    requires forall i :: 0 <= i < |s| ==> s[i] != '}'
    ensures Substitute(s) == s
  {
    if s != "" {
      NoBraceNoReference(s[1..]);
      assert s == [s[0]] + s[1..];
    }
  }

  /** After the prefix there is a brace at once, or none at all. */
  lemma NoNameAfterPrefix(s: string)
    requires PREFIX <= s && RefLength(s) == 0
    ensures
      var tail := s[|PREFIX|..];
      (tail != "" && tail[0] == '}') || forall i :: 0 <= i < |tail| ==> tail[i] != '}'
  {
    var tail := s[|PREFIX|..];
    var j := Brace(s, |PREFIX|);
    assert j == |PREFIX| || j == |s|;
    assert forall i :: 0 <= i < |tail| ==> tail[i] == s[|PREFIX| + i];
  }

  lemma BraceAtOnce(s: string)
    requires PREFIX <= s && |s| > |PREFIX| && s[|PREFIX|] == '}'
    ensures RefLength(s) == 0
  {
  }

  lemma PlainReference(s: string)
    requires s != "" && RefLength(s) == 0
    ensures Substitute(s) == [s[0]] + Substitute(s[1..])
  {
  }

  lemma NoPrefix(s: string)
    requires !(PREFIX <= s)
    ensures RefLength(s) == 0
  {
  }

  /** Masking what follows never completes a reference in front. */
  lemma NoNewReference(s: string)
    requires s != "" && RefLength(s) == 0
    ensures RefLength(Substitute(s)) == 0
  {
    hide RefLength, Substitute;
    var r := Substitute(s);
    if PREFIX <= r {
      PrefixComesFromSource(s);
      NoNameAfterPrefix(s);
      var tail := s[|PREFIX|..];
      if tail != "" && tail[0] == '}' {
        BraceStays(tail);
        BraceAtOnce(r);
      } else {
        NoBraceNoReference(tail);
        assert r == PREFIX + tail == s;
      }
    } else {
      NoPrefix(r);
    }
  }

  lemma BraceStays(tail: string)
    requires tail != "" && tail[0] == '}'
    ensures Substitute(tail) != "" && Substitute(tail)[0] == '}'
  {
    StartsWithDollar(tail);
  }

  lemma PrefixComesFromSource(s: string)
    requires s != "" && RefLength(s) == 0 && PREFIX <= Substitute(s)
    ensures PREFIX <= s && Substitute(s) == PREFIX + Substitute(s[|PREFIX|..])
  {
    hide RefLength, Substitute;
    var r, rest := Substitute(s), s[1..];
    PlainReference(s);
    PrefixHasOneDollar();
    assert forall i :: 0 <= i < 9 ==> r[i] == PREFIX[i];
    assert forall i :: 0 <= i < 8 ==> Substitute(rest)[i] == r[i + 1];
    PlainFront(rest, 8);
    var tail := rest[8..];
    assert tail == s[9..] && s[..9] == [s[0]] + rest[..8];
    assert r == s[..9] + Substitute(tail);
    assert r[..9] == PREFIX;
  }

  lemma PrefixHasOneDollar()
    ensures forall i :: 1 <= i < |PREFIX| ==> PREFIX[i] != '$'
  {
  }

  /** Masking twice is masking once: nothing the pattern finds is left but masks. */
  lemma {:induction false} SubstituteTwice(s: string)
    ensures Substitute(Substitute(s)) == Substitute(s)
    decreases |s|
  {
    if s != "" {
      var n := RefLength(s);
      if n > 0 {
        var rest := Substitute(s[n..]);
        SubstituteTwice(s[n..]);
        MaskInFront(MASK + rest);
        hide RefLength;
        assert (MASK + rest)[|MASK|..] == rest;
      } else {
        NoNewReference(s);
        SubstituteTwice(s[1..]);
        hide RefLength;
        var r := Substitute(s);
        assert r == [s[0]] + Substitute(s[1..]) && r[1..] == Substitute(s[1..]);
      }
    }
  }

  /** Under a secret key only stars or what counts as no secret; elsewhere no reference but the mask. */
  ghost predicate Hidden(secret: SecretKeys, v: Tree, key: Option<string>)
    decreases v
  {
    match v
    case Mapping(entries) =>
      forall i :: 0 <= i < |entries| ==> Hidden(secret, entries[i].value, Some(entries[i].key))
    case List(items) => forall i :: 0 <= i < |items| ==> Hidden(secret, items[i], None)
    case _ =>
      && (Secret(secret, key) ==> v == Text(STARS) || !Maskable(v))
      && (v.Text? ==> forall r :: r in References(v.s) ==> r == MASK)
  }

  /** Whatever the tree, its redacted form shows no secret value and no secret reference. */
  lemma {:induction false} RedactHides(secret: SecretKeys, v: Tree, key: Option<string>)
    ensures Hidden(secret, Redact(secret, v, key), key)
    decreases v
  {
    var r := Redact(secret, v, key);
    match v
    case Mapping(entries) =>
      forall i | 0 <= i < |entries| ensures Hidden(secret, r.entries[i].value, Some(r.entries[i].key)) {
        RedactHides(secret, entries[i].value, Some(entries[i].key));
      }
    case List(items) =>
      forall i | 0 <= i < |items| ensures Hidden(secret, r.items[i], None) {
        RedactHides(secret, items[i], None);
      }
    case Text(s) =>
      TextHidden(secret, s, key);
    case _ =>
      StarsHoldNoReference();
  }

  lemma StarsHoldNoReference()
    ensures Substitute(STARS) == STARS && References(STARS) == []
  {
    assert STARS[1..] == "**" && "**"[1..] == "*" && "*"[1..] == "";
  }

  lemma TextHidden(secret: SecretKeys, s: string, key: Option<string>)
    ensures Hidden(secret, Redact(secret, Text(s), key), key)
  {
    hide References, Substitute;
    StarsHoldNoReference();
    SubstituteTwice(s);
    UnchangedIff(Substitute(s));
    EmptyStaysEmpty();
    var r := Redact(secret, Text(s), key);
    if Secret(secret, key) && s != "" {
      assert r == Text(STARS);
    } else {
      assert r == Text(Substitute(s));
      assert Secret(secret, key) ==> !Maskable(r);
      assert forall x :: x in References(Substitute(s)) ==> x == MASK;
    }
  }

  lemma EmptyStaysEmpty()
    ensures Substitute("") == ""
  {
  }

  // --- Editing the redacted tree -------------------------------------------

  /** No string anywhere in `v` looks like a mask. */
  ghost predicate MaskFree(v: Tree)
    decreases v
  {
    match v
    case Mapping(entries) => forall i :: 0 <= i < |entries| ==> MaskFree(entries[i].value)
    case List(items) => forall i :: 0 <= i < |items| ==> MaskFree(items[i])
    case _ => !IsMask(v)
  }

  /** What holds no mask is taken as it is, whatever stood there before. */
  lemma {:induction false} MaskFreeIsKept(secret: SecretKeys, v: Tree, was: Tree, key: Option<string>)
    requires MaskFree(v)
    ensures Restore(secret, v, was, key) == v
    decreases v
  {
    var r := Restore(secret, v, was, key);
    match v
    case Mapping(entries) =>
      var olds := if was.Mapping? then was.entries else [];
      forall i | 0 <= i < |entries| ensures r.entries[i] == entries[i] {
        MaskFreeIsKept(secret, entries[i].value, Get(olds, entries[i].key), Some(entries[i].key));
      }
      assert r.entries == entries;
    case List(items) =>
      var olds := if was.List? then was.items else [];
      forall i | 0 <= i < |items| ensures r.items[i] == items[i] {
        MaskFreeIsKept(secret, items[i], if i < |olds| then olds[i] else Null, key);
      }
      assert r.items == items;
    case _ =>
  }

  /** A place in a tree: the position to descend into, level by level. */
  ghost predicate Leads(path: seq<nat>, v: Tree)
    decreases |path|
  {
    path == [] || match v
      case Mapping(entries) => path[0] < |entries| && Leads(path[1..], entries[path[0]].value)
      case List(items) => path[0] < |items| && Leads(path[1..], items[path[0]])
      case _ => false
  }

  /** The tree with what stands at that place replaced. */
  ghost function Put(v: Tree, path: seq<nat>, w: Tree): Tree
    requires Leads(path, v)
    decreases |path|
  {
    if path == [] then w
    else match v
      case Mapping(entries) =>
        var e := entries[path[0]];
        Mapping(entries[path[0] := Entry(e.key, Put(e.value, path[1..], w))])
      case List(items) => List(items[path[0] := Put(items[path[0]], path[1..], w)])
  }

  lemma {:induction false} RedactKeepsPlaces(secret: SecretKeys, v: Tree, key: Option<string>, path: seq<nat>)
    requires Leads(path, v)
    ensures Leads(path, Redact(secret, v, key))
    decreases |path|
  {
    if path != [] {
      match v
      case Mapping(entries) =>
        RedactKeepsPlaces(secret, entries[path[0]].value, Some(entries[path[0]].key), path[1..]);
      case List(items) =>
        RedactKeepsPlaces(secret, items[path[0]], None, path[1..]);
    }
  }

  /**
    The panel edits what it was shown. Whatever it puts at any one place,
    masked there or not, ends up at exactly that place of the original, and the
    secrets everywhere else are the original ones.
   */
  lemma {:induction false} EditIsApplied(secret: SecretKeys, v: Tree, key: Option<string>, under: Option<string>, path: seq<nat>, w: Tree)
    requires Wellformed(v) && WholeReferences(secret, v, key) && (under == key || key == None)
    requires Leads(path, v) && MaskFree(w)
    ensures Leads(path, Redact(secret, v, key))
    ensures Restore(secret, Put(Redact(secret, v, key), path, w), v, under) == Put(v, path, w)
    decreases |path|
  {
    RedactKeepsPlaces(secret, v, key, path);
    if path == [] {
      MaskFreeIsKept(secret, w, v, under);
    } else {
      var p := path[0];
      var r := Restore(secret, Put(Redact(secret, v, key), path, w), v, under);
      match v
      case Mapping(entries) =>
        forall i | 0 <= i < |entries| ensures r.entries[i] == Put(v, path, w).entries[i] {
          GetFinds(entries, i);
          if i == p {
            EditIsApplied(secret, entries[i].value, Some(entries[i].key), Some(entries[i].key), path[1..], w);
          } else {
            RestoreUndoesRedactIff(secret, entries[i].value, Some(entries[i].key), Some(entries[i].key));
          }
        }
        assert r.entries == Put(v, path, w).entries;
      case List(items) =>
        forall i | 0 <= i < |items| ensures r.items[i] == Put(v, path, w).items[i] {
          if i == p {
            EditIsApplied(secret, items[i], None, under, path[1..], w);
          } else {
            RestoreUndoesRedactIff(secret, items[i], None, under);
          }
        }
        assert r.items == Put(v, path, w).items;
    }
  }

  // --- What is shown as it is ----------------------------------------------

  predicate OnlyMasks(s: string) {
    forall r :: r in References(s) ==> r == MASK
  }

  lemma ShownTextIff(secret: SecretKeys, s: string, key: Option<string>)
    ensures Redact(secret, Text(s), key) == Text(s) <==> if Secret(secret, key) && s != "" then s == STARS else OnlyMasks(s)
  {
    UnchangedIff(s);
    hide References, Substitute;
    assert OnlyMasks(s) <==> Substitute(s) == s;
    if Secret(secret, key) && s != "" {
      assert Redact(secret, Text(s), key) == Text(STARS);
    } else {
      assert Redact(secret, Text(s), key) == Text(Substitute(s));
    }
  }

  /** No value to hide under a secret key, and no reference but the mask itself. */
  ghost predicate NothingHidden(secret: SecretKeys, v: Tree, key: Option<string>)
    decreases v
  {
    match v
    case Mapping(entries) =>
      forall i :: 0 <= i < |entries| ==> NothingHidden(secret, entries[i].value, Some(entries[i].key))
    case List(items) => forall i :: 0 <= i < |items| ==> NothingHidden(secret, items[i], None)
    case Text(s) =>
      if Secret(secret, key) && s != "" then s == STARS else OnlyMasks(s)
    case Number(n) => !Secret(secret, key) || n == 0
    case Flag(b) => !Secret(secret, key) || !b
    case Null => true
  }

  /** A tree is shown as it is exactly when there is nothing in it to hide; what is empty or off is never masked. */
  lemma {:induction false} ShownAsIsIff(secret: SecretKeys, v: Tree, key: Option<string>)
    ensures Redact(secret, v, key) == v <==> NothingHidden(secret, v, key)
    decreases v
  {
    hide OnlyMasks, Substitute;
    var r := Redact(secret, v, key);
    match v
    case Mapping(entries) =>
      forall i | 0 <= i < |entries|
        ensures r.entries[i] == entries[i] <==> NothingHidden(secret, entries[i].value, Some(entries[i].key))
      {
        ShownAsIsIff(secret, entries[i].value, Some(entries[i].key));
      }
      assert r.entries == entries <==> forall i :: 0 <= i < |entries| ==> r.entries[i] == entries[i];
    case List(items) =>
      forall i | 0 <= i < |items| ensures r.items[i] == items[i] <==> NothingHidden(secret, items[i], None) {
        ShownAsIsIff(secret, items[i], None);
      }
      assert r.items == items <==> forall i :: 0 <= i < |items| ==> r.items[i] == items[i];
    case Text(s) =>
      ShownTextIff(secret, s, key);
    case _ =>
  }
}
