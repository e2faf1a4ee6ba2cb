/**
  What becomes of a redacted tree that the panel returns rearranged: everything
  masked is restored by key in mappings and by position in lists
  (api/routes_config.py, `_restore_masked_values`).
 */
module RedactionEdits {
  import opened Options
  import opened Redaction

  /**
    Whether `v`, shown redacted and restored against `was`, comes out as `v`:
    hidden places must hold the same in both, shown ones need not, but must not
    have been damaged by the masking.
   */
  ghost predicate Fits(secret: SecretKeys, v: Tree, was: Tree, key: Option<string>, under: Option<string>)
    decreases v
  {
    match v
    case Mapping(entries) =>
      var olds := if was.Mapping? then was.entries else [];
      forall i :: 0 <= i < |entries| ==>
        Fits(secret, entries[i].value, Get(olds, entries[i].key), Some(entries[i].key), Some(entries[i].key))
    case List(items) =>
      forall i :: 0 <= i < |items| ==> Fits(secret, items[i], ItemAt(was, i), None, under)
    case Text(s) =>
      if (Secret(secret, key) && s != "") || (Secret(secret, under) && (s == STARS || IsReference(s))) then v == was
      else if IsReference(s) then (if was.Text? then v == was else s == MASK)
      else Undamaged(s)
    case _ => Secret(secret, key) && Maskable(v) ==> v == was
  }

  /** `old_list[index] if index < len(old_list) else None`. */
  function ItemAt(was: Tree, i: nat): Tree {
    if was.List? && i < |was.items| then was.items[i] else Null
  }

  lemma StarsStay(s: string)
    ensures Substitute(s) == STARS <==> s == STARS
  {
    ShortIsUnchanged(s);
    NoBraceNoReference(STARS);
  }

  lemma TextFitsIff(secret: SecretKeys, s: string, was: Tree, key: Option<string>, under: Option<string>)
    requires under == key || key == None
    ensures Restore(secret, Redact(secret, Text(s), key), was, under) == Text(s) <==> Fits(secret, Text(s), was, key, under)
  {
    hide IsReference, References, Substitute;
    SubstituteIsMaskIff(s);
    UnchangedIff(s);
    StarsStay(s);
    assert Substitute("") == "" by { NoBraceNoReference(""); }
    assert STARS != MASK by { assert |STARS| != |MASK|; }
    var shown := Redact(secret, Text(s), key);
    if Secret(secret, key) && s != "" {
      assert shown == Text(STARS);
    } else {
      assert shown == Text(Substitute(s));
    }
  }

  /**
    The panel is shown any tree `v` and returns it while `was` is in force: it
    comes out as `v` exactly when `v` fits `was`.
   */
  lemma {:induction false} RestoredIff(secret: SecretKeys, v: Tree, was: Tree, key: Option<string>, under: Option<string>)
    requires under == key || key == None
    ensures Restore(secret, Redact(secret, v, key), was, under) == v <==> Fits(secret, v, was, key, under)
    decreases v
  {
    hide IsReference, Undamaged, Substitute;
    var r := Restore(secret, Redact(secret, v, key), was, under);
    match v
    case Mapping(entries) =>
      var olds := if was.Mapping? then was.entries else [];
      forall i | 0 <= i < |entries|
        ensures r.entries[i] == entries[i]
           <==> Fits(secret, entries[i].value, Get(olds, entries[i].key), Some(entries[i].key), Some(entries[i].key))
      {
        RestoredIff(secret, entries[i].value, Get(olds, entries[i].key), Some(entries[i].key), Some(entries[i].key));
      }
      assert r.entries == entries <==> forall i :: 0 <= i < |entries| ==> r.entries[i] == entries[i];
    case List(items) =>
      forall i | 0 <= i < |items|
        ensures r.items[i] == items[i] <==> Fits(secret, items[i], ItemAt(was, i), None, under)
      {
        RestoredIff(secret, items[i], ItemAt(was, i), None, under);
      }
      assert r.items == items <==> forall i :: 0 <= i < |items| ==> r.items[i] == items[i];
    case Text(s) =>
      TextFitsIff(secret, s, was, key, under);
    case _ =>
  }

  // --- Rearranged lists ----------------------------------------------------

  /** The items at these positions: any selection, order and repetition. */
  function Picked(items: seq<Tree>, pick: seq<nat>): seq<Tree>
    requires forall i :: 0 <= i < |pick| ==> pick[i] < |items|
  {
    seq(|pick|, i requires 0 <= i < |pick| => items[pick[i]])
  }

  /**
    However the panel rearranges the items it was shown, they keep their own
    secrets exactly when each fits the item that stood in its new position.
   */
  lemma RearrangedIff(secret: SecretKeys, items: seq<Tree>, under: Option<string>, pick: seq<nat>)
    requires forall i :: 0 <= i < |pick| ==> pick[i] < |items|
    ensures
      var shown := Redact(secret, List(items), under).items;
      Restore(secret, List(Picked(shown, pick)), List(items), under) == List(Picked(items, pick))
      <==> forall i :: 0 <= i < |pick| ==>
             Fits(secret, items[pick[i]], if i < |items| then items[i] else Null, None, under)
  {
    var v := List(Picked(items, pick));
    ShownPicked(secret, items, under, pick);
    RestoredIff(secret, v, List(items), None, under);
    ListFitsIff(secret, v.items, List(items), under);
    hide Redact, Restore, Fits;
    assert forall i :: 0 <= i < |pick| ==> ItemAt(List(items), i) == if i < |items| then items[i] else Null;
  }

  lemma ShownPicked(secret: SecretKeys, items: seq<Tree>, under: Option<string>, pick: seq<nat>)
    requires forall i :: 0 <= i < |pick| ==> pick[i] < |items|
    ensures
      var shown := Redact(secret, List(items), under).items;
      |shown| == |items| && Redact(secret, List(Picked(items, pick)), None) == List(Picked(shown, pick))
  {
    hide Maskable, Substitute;
    var shown := Redact(secret, List(items), under).items;
    var r := Redact(secret, List(Picked(items, pick)), None).items;
    forall i | 0 <= i < |pick| ensures r[i] == Picked(shown, pick)[i] {
      assert r[i] == Redact(secret, items[pick[i]], None);
    }
    assert r == Picked(shown, pick);
  }

  lemma ListFitsIff(secret: SecretKeys, items: seq<Tree>, was: Tree, under: Option<string>)
    ensures Fits(secret, List(items), was, None, under)
       <==> forall i :: 0 <= i < |items| ==> Fits(secret, items[i], ItemAt(was, i), None, under)
  {
    hide IsReference, Undamaged, Maskable;
  }

  function AllBut(n: nat, k: nat): (pick: seq<nat>)
    requires k < n
    ensures |pick| == n - 1 && forall i :: 0 <= i < |pick| ==> pick[i] == if i < k then i else i + 1
  {
    seq(n - 1, i => if i < k then i else i + 1)
  }

  lemma PickedAllBut(items: seq<Tree>, k: nat)
    requires k < |items|
    ensures Picked(items, AllBut(|items|, k)) == items[..k] + items[k + 1..]
  {
  }

  /**
    Taking item `k` out of any list leaves all others with their own secrets if
    and only if the ones in front come back at all and each one behind fits the
    item that stood before it.
   */
  lemma RemovalKeepsTheRightSecretsIff(secret: SecretKeys, items: seq<Tree>, under: Option<string>, k: nat)
    requires k < |items|
    ensures
      var shown := Redact(secret, List(items), under).items;
      |shown| == |items| &&
      (Restore(secret, List(shown[..k] + shown[k + 1..]), List(items), under) == List(items[..k] + items[k + 1..])
       <==> && (forall i :: 0 <= i < k ==> Fits(secret, items[i], items[i], None, under))
            && (forall i :: k <= i < |items| - 1 ==> Fits(secret, items[i + 1], items[i], None, under)))
  {
    var shown := Redact(secret, List(items), under).items;
    hide Redact, Restore, Fits;
    var pick := AllBut(|items|, k);
    PickedAllBut(items, k);
    PickedAllBut(shown, k);
    RearrangedIff(secret, items, under, pick);
    if forall i :: 0 <= i < |pick| ==> Fits(secret, items[pick[i]], items[i], None, under) {
      forall i | 0 <= i < k ensures Fits(secret, items[i], items[i], None, under) { assert pick[i] == i; }
      forall i | k <= i < |items| - 1 ensures Fits(secret, items[i + 1], items[i], None, under) { assert pick[i] == i + 1; }
    }
  }

  /** Every item of a list whose references are all whole fits itself. */
  lemma FitsItselfIff(secret: SecretKeys, v: Tree, key: Option<string>, under: Option<string>)
    requires Wellformed(v) && (under == key || key == None)
    ensures Fits(secret, v, v, key, under) <==> WholeReferences(secret, v, key)
  {
    hide Redact, Restore, Fits, WholeReferences, Wellformed;
    RestoredIff(secret, v, v, key, under);
    RestoreUndoesRedactIff(secret, v, key, under);
  }

  // --- Profiles ------------------------------------------------------------

  /** A profile as it stands in the configuration, as far as it matters here. */
  function ProfileEntry(name: string, password: string): Tree {
    Mapping([Entry("name", Text(name)), Entry("password", Text(password))])
  }

  lemma ProfileGet(name: string, password: string)
    ensures
      var entries := ProfileEntry(name, password).entries;
      Get(entries, "name") == Text(name) && Get(entries, "password") == Text(password)
  {
    var entries := ProfileEntry(name, password).entries;
    assert |"name"| != |"password"|;
    assert entries[1..][0] == Entry("password", Text(password));
  }

  lemma ShownProfile(secret: SecretKeys, name: string, password: string)
    requires secret("password") && !secret("name") && password != "" && References(name) == []
    ensures Redact(secret, ProfileEntry(name, password), None) == ProfileEntry(name, STARS)
  {
    UnchangedIff(name);
    hide Substitute, References;
    var p := ProfileEntry(name, password);
    var r := Redact(secret, p, None);
    assert p.entries[0] == Entry("name", Text(name)) && p.entries[1] == Entry("password", Text(password));
    assert Redact(secret, Text(name), Some("name")) == Text(name);
    assert Redact(secret, Text(password), Some("password")) == Text(STARS);
    assert r.entries == [Entry("name", Text(name)), Entry("password", Text(STARS))];
  }

  lemma RestoredProfile(secret: SecretKeys, name: string, was: string, password: string, under: Option<string>)
    requires secret("password") && !secret("name") && References(name) == []
    ensures Restore(secret, ProfileEntry(name, STARS), ProfileEntry(was, password), under) == ProfileEntry(name, password)
  {
    ProfileGet(was, password);
    assert name != MASK by {
      MaskIsReference();
    }
    hide References, Get;
    var p := ProfileEntry(name, STARS);
    var olds := ProfileEntry(was, password);
    var r := Restore(secret, p, olds, under);
    assert p.entries[0] == Entry("name", Text(name)) && p.entries[1] == Entry("password", Text(STARS));
    assert Restore(secret, Text(name), Text(was), Some("name")) == Text(name);
    assert Restore(secret, Text(STARS), Text(password), Some("password")) == Text(password);
    assert r.entries == [Entry("name", Text(name)), Entry("password", Text(password))];
  }

  /**
    Of two profiles the first is taken out: the other one is left with the
    password of the removed one. That is right if and only if they were the
    same; the names do not matter.
   */
  lemma ProfileRemovalIff(secret: SecretKeys, n: string, x: string, m: string, y: string, under: Option<string>)
    requires secret("password") && !secret("name") && y != "" && References(m) == []
    ensures
      var items := [ProfileEntry(n, x), ProfileEntry(m, y)];
      var shown := Redact(secret, List(items), under).items;
      |shown| == 2 &&
      var kept := Restore(secret, List([shown[1]]), List(items), under);
      && kept == List([ProfileEntry(m, x)])
      && (kept == List([ProfileEntry(m, y)]) <==> x == y)
  {
    var items := [ProfileEntry(n, x), ProfileEntry(m, y)];
    var shown := Redact(secret, List(items), under).items;
    assert shown[1] == Redact(secret, items[1], None);
    ShownProfile(secret, m, y);
    RestoredProfile(secret, m, n, x, under);
    var kept := Restore(secret, List([shown[1]]), List(items), under);
    hide Redact, References;
    assert kept.items[0] == Restore(secret, shown[1], items[0], under);
    assert kept.items == [ProfileEntry(m, x)];
    assert ProfileEntry(m, x).entries[1] == Entry("password", Text(x));
    assert ProfileEntry(m, y).entries[1] == Entry("password", Text(y));
  }

  /** It happens: the second profile gets the password of the removed first one. */
  lemma RemovalGivesWrongPassword(secret: SecretKeys)
    requires secret("password") && !secret("name")
    ensures
      var items := [ProfileEntry("a", "first"), ProfileEntry("b", "second")];
      var shown := Redact(secret, List(items), Some("profiles")).items;
      && |shown| == 2
      && Restore(secret, List([shown[1]]), List(items), Some("profiles")) == List([ProfileEntry("b", "first")])
  {
    assert References("b") == [] by { assert "b"[1..] == "" && References("") == []; }
    hide Redact, Restore, References;
    ProfileRemovalIff(secret, "a", "first", "b", "second", Some("profiles"));
  }

  // --- Bare references -----------------------------------------------------

  lemma AllShownAsMasks(secret: SecretKeys, items: seq<Tree>, under: Option<string>)
    requires forall i :: 0 <= i < |items| ==> items[i].Text? && IsReference(items[i].s)
    ensures
      var r := Redact(secret, List(items), under);
      r.List? && |r.items| == |items| && forall i :: 0 <= i < |items| ==> r.items[i] == Text(MASK)
  {
    hide IsReference;
    var r := Redact(secret, List(items), under);
    forall i | 0 <= i < |items| ensures r.items[i] == Text(MASK) {
      assert r.items[i] == Redact(secret, items[i], None);
      SubstituteIsMaskIff(items[i].s);
    }
  }

  lemma MasksRestoreByPosition(secret: SecretKeys, masks: seq<Tree>, items: seq<Tree>, under: Option<string>)
    requires forall i :: 0 <= i < |masks| ==> masks[i] == Text(MASK)
    requires |masks| <= |items| && forall i :: 0 <= i < |items| ==> items[i].Text?
    ensures Restore(secret, List(masks), List(items), under) == List(items[..|masks|])
  {
    var r := Restore(secret, List(masks), List(items), under);
    forall i | 0 <= i < |masks| ensures r.items[i] == items[i] {
      assert r.items[i] == Restore(secret, Text(MASK), items[i], under);
    }
    assert r.items == items[..|masks|];
  }

  /** Of a list of bare references the last one is lost instead of item `k`: fine if all from `k` on are the same. */
  lemma ReferenceRemovalIff(secret: SecretKeys, items: seq<Tree>, under: Option<string>, k: nat)
    requires k < |items| && forall i :: 0 <= i < |items| ==> items[i].Text? && IsReference(items[i].s)
    ensures
      var shown := Redact(secret, List(items), under).items;
      var kept := Restore(secret, List(shown[..k] + shown[k + 1..]), List(items), under);
      kept == List(items[..|items| - 1])
      && (kept == List(items[..k] + items[k + 1..])
          <==> forall i :: k <= i < |items| - 1 ==> items[i] == items[i + 1])
  {
    hide IsReference, Redact, Restore;
    AllShownAsMasks(secret, items, under);
    var n := |items| - 1;
    var shown := Redact(secret, List(items), under).items;
    var left := shown[..k] + shown[k + 1..];
    MasksRestoreByPosition(secret, left, items, under);
    var kept := Restore(secret, List(left), List(items), under);
    var meant := items[..k] + items[k + 1..];
    assert forall i :: k <= i < n ==> meant[i] == items[i + 1] && kept.items[i] == items[i];
    if forall i :: k <= i < n ==> items[i] == items[i + 1] {
      assert kept.items == meant;
    }
  }

  lemma SampleReferences()
    ensures IsReference("${SECRET:a}") && IsReference("${SECRET:b}")
  {
    var s, t := "${SECRET:a}", "${SECRET:b}";
    assert s[..9] == PREFIX && t[..9] == PREFIX;
    assert s[9] == 'a' && t[9] == 'b' && s[10] == '}' && t[10] == '}';
    assert Brace(s, 9) == 10 && Brace(t, 9) == 10;
  }

  /** It happens: of two secrets the first is taken out, and the first is what is left. */
  lemma RemovalLeavesTheRemoved(secret: SecretKeys, under: Option<string>)
    ensures
      var items := [Text("${SECRET:a}"), Text("${SECRET:b}")];
      var shown := Redact(secret, List(items), under).items;
      Restore(secret, List(shown[1..]), List(items), under) == List([Text("${SECRET:a}")]) != List([Text("${SECRET:b}")])
  {
    SampleReferences();
    var items := [Text("${SECRET:a}"), Text("${SECRET:b}")];
    hide IsReference, Redact, Restore;
    AllShownAsMasks(secret, items, under);
    ReferenceRemovalIff(secret, items, under, 0);
    var shown := Redact(secret, List(items), under).items;
    assert shown[..0] + shown[1..] == shown[1..];
    assert items[..1] == [Text("${SECRET:a}")];
    assert "${SECRET:a}"[9] != "${SECRET:b}"[9];
  }
}
