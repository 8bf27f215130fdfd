/**
 What passing the release gate means: the component lock and the CycloneDX and SPDX lists
 describe the same components (tools/compliance_gate.py).
 */
module GateAgreement {
  import opened Common
  import opened Json
  import opened Gate

  function Locks(lock: Fields): seq<Fields> {
    Objects(Components(lock))
  }

  predicate Named(o: Fields) {
    GetText(o, "name") != ""
  }

  /** No two named entries share a case-folded name. */
  predicate DistinctNames(t: Texts, es: seq<Fields>) {
    forall i, j :: 0 <= i < j < |es| && Named(es[i]) && Named(es[j]) ==> NameKey(t, es[i]) != NameKey(t, es[j])
  }

  /** Some named entry has this case-folded name. */
  predicate HasName(t: Texts, es: seq<Fields>, key: string) {
    exists i :: 0 <= i < |es| && Named(es[i]) && NameKey(t, es[i]) == key
  }

  lemma {:induction false} UniqueIsDistinct(t: Texts, es: seq<Fields>)
    requires Lawful(t)
    ensures UniqueNames(t, es) ==> DistinctNames(t, es)
  {
  }

  /** An accepted lock holds only objects, all named, with distinct case-folded names. */
  lemma {:induction false} LockIsDistinct(t: Texts, lock: Fields)
    requires Lawful(t) && LockOk(t, lock)
    ensures AllObjects(Components(lock)) && |Locks(lock)| == |Components(lock)|
    ensures forall i :: 0 <= i < |Locks(lock)| ==> Named(Locks(lock)[i]) && Locks(lock)[i] == Components(lock)[i].fields
    ensures DistinctNames(t, Locks(lock))
  {
    var items, cs := Components(lock), Locks(lock);
    forall i | 0 <= i < |items|
      ensures items[i].Obj?
    {
      assert LockItemOk(t, items[i], i);
    }
    ObjectsOfAll(items);
    forall i | 0 <= i < |cs|
      ensures Named(cs[i]) && t.fold(LockName(t, cs[i], i)) == t.strip(NameKey(t, cs[i]))
    {
      assert LockItemOk(t, items[i], i);
      assert LOCK_FIELDS[0] == "name" && PENDING[0] == "";
      assert Pinned(t, cs[i], LOCK_FIELDS[0]);
    }
    forall i, j | 0 <= i < j < |cs|
      ensures NameKey(t, cs[i]) != NameKey(t, cs[j])
    {
      assert LockKey(t, items[i], i) != LockKey(t, items[j], j);
    }
  }

  /** With distinct names the dictionary finds exactly the entry of that name. */
  lemma {:induction false} ByNameIs(t: Texts, es: seq<Fields>, j: nat)
    requires DistinctNames(t, es) && j < |es| && Named(es[j]) && Lawful(t)
    ensures NameKey(t, es[j]) in ByName(t, es) && ByName(t, es)[NameKey(t, es[j])] == es[j]
  {
    var key := NameKey(t, es[j]);
    ByNameHolds(t, es, key);
    var i :| 0 <= i < |es| && NameKey(t, es[i]) == key && es[i] == ByName(t, es)[key];
    assert Named(es[i]);
  }

  ghost predicate SameNames(t: Texts, cs: seq<Fields>, es: seq<Fields>) {
    forall key :: HasName(t, cs, key) <==> HasName(t, es, key)
  }

  /** Entries of the same name state the same revision, digest and license. */
  predicate EntriesAgree(t: Texts, format: Format, cs: seq<Fields>, es: seq<Fields>) {
    forall i, j :: 0 <= i < |cs| && 0 <= j < |es| && Named(es[j]) && NameKey(t, cs[i]) == NameKey(t, es[j]) ==>
      Agrees(t, format, cs[i], es[j])
  }

  lemma {:induction false} LockedHasEntry(t: Texts, format: Format, lock: Fields, es: seq<Fields>, i: nat)
    requires Lawful(t) && LockOk(t, lock) && Matches(t, format, Components(lock), es)
    requires i < |Locks(lock)|
    ensures exists j :: 0 <= j < |es| && Named(es[j]) && NameKey(t, es[j]) == NameKey(t, Locks(lock)[i])
    ensures NameKey(t, Locks(lock)[i]) in ByName(t, es)
    ensures Agrees(t, format, Locks(lock)[i], ByName(t, es)[NameKey(t, Locks(lock)[i])])
  {
    LockIsDistinct(t, lock);
    var c := Locks(lock)[i];
    assert Matched(t, format, Components(lock)[i].fields, es);
    ByNameHolds(t, es, NameKey(t, c));
    var j :| 0 <= j < |es| && NameKey(t, es[j]) == NameKey(t, c);
    assert Named(c) && Named(es[j]);
  }

  lemma {:induction false} ListHasLockNames(t: Texts, format: Format, lock: Fields, es: seq<Fields>)
    requires Lawful(t) && LockOk(t, lock) && Matches(t, format, Components(lock), es)
    ensures SameNames(t, Locks(lock), es)
  {
    LockIsDistinct(t, lock);
    var cs := Locks(lock);
    forall key
      ensures HasName(t, cs, key) <==> HasName(t, es, key)
    {
      if HasName(t, cs, key) {
        var i :| 0 <= i < |cs| && Named(cs[i]) && NameKey(t, cs[i]) == key;
        LockedHasEntry(t, format, lock, es, i);
      }
      if HasName(t, es, key) {
        var j :| 0 <= j < |es| && Named(es[j]) && NameKey(t, es[j]) == key;
        assert Locked(t, cs, es[j]);
      }
    }
  }

  lemma {:induction false} ListAgreesWithLock(t: Texts, format: Format, lock: Fields, es: seq<Fields>)
    requires Lawful(t) && LockOk(t, lock) && Matches(t, format, Components(lock), es) && UniqueNames(t, es)
    ensures SameNames(t, Locks(lock), es) && DistinctNames(t, es) && EntriesAgree(t, format, Locks(lock), es)
  {
    ListHasLockNames(t, format, lock, es);
    UniqueIsDistinct(t, es);
    var cs := Locks(lock);
    forall i, j | 0 <= i < |cs| && 0 <= j < |es| && Named(es[j]) && NameKey(t, cs[i]) == NameKey(t, es[j])
      ensures Agrees(t, format, cs[i], es[j])
    {
      LockedHasEntry(t, format, lock, es, i);
      ByNameIs(t, es, j);
    }
  }

  lemma {:induction false} AcceptedLockIsNotEmpty(t: Texts, lock: Fields)
    requires LockOk(t, lock)
    ensures lock != map[] && HasComponents(lock)
  {
  }

  /**
   When the validators accept the three documents, the lock, the CycloneDX list and the SPDX
   list have the same case-folded names, each once, and agree name by name on revision,
   digest and license; so the two lists also agree with each other.
   */
  lemma {:induction false} AcceptedDocumentsAgree(t: Texts, lock: Fields, cdx: Fields, spdx: Fields)
    requires Lawful(t) && LockOk(t, lock) && CdxOk(t, Some(lock), Some(cdx)) && SpdxOk(t, Some(lock), Some(spdx))
    ensures var cs, xs, ps := Locks(lock), Entries(cdx, "components"), Entries(spdx, "packages");
      && DistinctNames(t, cs) && DistinctNames(t, xs) && DistinctNames(t, ps)
      && SameNames(t, cs, xs) && SameNames(t, cs, ps)
      && EntriesAgree(t, CycloneDx, cs, xs) && EntriesAgree(t, Spdx, cs, ps)
      && forall i, j :: 0 <= i < |xs| && 0 <= j < |ps| && Named(xs[i]) && Named(ps[j]) && NameKey(t, xs[i]) == NameKey(t, ps[j]) ==>
           && GetText(xs[i], "version") == GetText(ps[j], "versionInfo")
           && (exists digest :: digest in Hashes(t, CycloneDx, xs[i]) && digest in Hashes(t, Spdx, ps[j]))
           && Text(Get(ps[j], "licenseDeclared", Null)) in Declared(Items(Get(xs[i], "licenses", Null)))
  {
    AcceptedLockIsNotEmpty(t, lock);
    LockIsDistinct(t, lock);
    var cs, xs, ps := Locks(lock), Entries(cdx, "components"), Entries(spdx, "packages");
    ListAgreesWithLock(t, CycloneDx, lock, xs);
    ListAgreesWithLock(t, Spdx, lock, ps);
    forall i, j | 0 <= i < |xs| && 0 <= j < |ps| && Named(xs[i]) && Named(ps[j]) && NameKey(t, xs[i]) == NameKey(t, ps[j])
      ensures GetText(xs[i], "version") == GetText(ps[j], "versionInfo")
      ensures exists digest :: digest in Hashes(t, CycloneDx, xs[i]) && digest in Hashes(t, Spdx, ps[j])
      ensures Text(Get(ps[j], "licenseDeclared", Null)) in Declared(Items(Get(xs[i], "licenses", Null)))
    {
      assert HasName(t, xs, NameKey(t, xs[i]));
      var k :| 0 <= k < |cs| && Named(cs[k]) && NameKey(t, cs[k]) == NameKey(t, xs[i]);
      assert LockItemOk(t, Components(lock)[k], k);
      LicenseIsStated(t, Components(lock)[k], k);
      TwoListsAgree(t, cs[k], xs[i], ps[j]);
    }
  }

  lemma {:induction false} LicenseIsStated(t: Texts, item: Json, index: nat)
    requires Lawful(t) && LockItemOk(t, item, index)
    ensures "license_spdx" in item.fields
  {
    assert LOCK_FIELDS[6] == "license_spdx" && PENDING[0] == "";
    assert Pinned(t, item.fields, LOCK_FIELDS[6]);
  }

  lemma {:induction false} TwoListsAgree(t: Texts, c: Fields, x: Fields, p: Fields)
    requires "license_spdx" in c && Agrees(t, CycloneDx, c, x) && Agrees(t, Spdx, c, p)
    ensures GetText(x, "version") == GetText(p, "versionInfo")
    ensures exists digest :: digest in Hashes(t, CycloneDx, x) && digest in Hashes(t, Spdx, p)
    ensures Text(Get(p, "licenseDeclared", Null)) in Declared(Items(Get(x, "licenses", Null)))
  {
    assert WithoutPrefix(GetText(c, "digest")) in Hashes(t, CycloneDx, x);
    assert Get(p, "licenseDeclared", Null) == c["license_spdx"];
  }
}
