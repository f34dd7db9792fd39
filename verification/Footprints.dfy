/**
 What a manifest promises about an application: the objects and cells it does not declare
 as written stay as they are, and an owner's record changes only in ways that the manifest
 or the gas payment announces.
 */
module Footprints {
  import opened Prelude
  import opened ChangeSets
  import opened Ledger
  import opened Merging

  /** The two states agree on what a key names; owner records are left to `AnnouncedOwner`. */
  ghost predicate SameAt(s: State, t: State, k: Key) {
    match k
    case ObjectKey(id) => Find(s.objects, id) == Find(t.objects, id)
    case Named(n) => SameCell(s, t, n)
    case DynamicFence => forall f :: SameCell(s, t, DynamicField(f))
    case OwnerKey(_) => true
  }

  ghost predicate SameCell(s: State, t: State, n: CellName) {
    (n in s.cells <==> n in t.cells) && (n in s.cells ==> s.cells[n] == t.cells[n])
  }

  ghost predicate SameOn(s: State, t: State, m: AccessSet) {
    forall k :: k in m.readKeys || k in m.writeKeys ==> SameAt(s, t, k)
  }

  lemma TouchedIsWritten(cs: ChangeSet, id: ObjectId)
    requires id in Touched(cs)
    ensures ObjectKey(id) in Manifest(cs).writeKeys
  {
    assert id in PaymentObjects(cs) + cs.objects.Keys;
    assert ObjectKey(id) in ObjectWrites(cs);
  }

  lemma UndeclaredCell(books: Books, s: State, cs: ChangeSet, n: CellName)
    requires n !in CellNames(cs)
    ensures SameCell(s, Effected(books, s, cs), n)
  {
  }

  lemma UndeclaredIsUntouched(books: Books, s: State, cs: ChangeSet, k: Key)
    requires k !in Manifest(cs).writeKeys
    ensures SameAt(s, Effected(books, s, cs), k)
  {
    match k
    case ObjectKey(id) =>
      if id in Touched(cs) {
        TouchedIsWritten(cs, id);
      }
      FindAfter(s.objects, cs, id);
    case Named(n) =>
      assert k !in NamedWrites(cs);
      UndeclaredCell(books, s, cs, n);
    case DynamicFence =>
      assert cs.dynamicFields == map[];
      forall f ensures SameCell(s, Effected(books, s, cs), DynamicField(f)) {
        CellNamed(cs, DynamicField(f));
        UndeclaredCell(books, s, cs, DynamicField(f));
      }
    case OwnerKey(_) =>
  }

  lemma {:induction false} UndeclaredByAll(books: Books, s: State, css: seq<ChangeSet>, k: Key)
    requires forall i :: 0 <= i < |css| ==> k !in Manifest(css[i]).writeKeys
    ensures SameAt(s, EffectedByAll(books, s, css), k)
  {
    if css != [] {
      var init := css[..|css| - 1];
      UndeclaredByAll(books, s, init, k);
      UndeclaredIsUntouched(books, EffectedByAll(books, s, init), css[|css| - 1], k);
    }
  }

  /** In a conflict-free list, each changeset finds its declared keys as they were at the start. */
  lemma DeclaredKeysStay(books: Books, s: State, css: seq<ChangeSet>, j: nat)
    requires ConflictFree(Manifests(css)) && j < |css|
    ensures SameOn(s, EffectedByAll(books, s, css[..j]), Manifest(css[j]))
  {
    forall k | k in Manifest(css[j]).readKeys || k in Manifest(css[j]).writeKeys
      ensures SameAt(s, EffectedByAll(books, s, css[..j]), k)
    {
      forall i | 0 <= i < j ensures k !in Manifest(css[..j][i]).writeKeys {
        assert !ConflictsWith(Manifests(css)[j], Manifests(css)[i]);
      }
      UndeclaredByAll(books, s, css[..j], k);
    }
  }

  /** A declared write is an object that the owner had or has. */
  ghost predicate OwnObjectDeclared(objects: Objects, cs: ChangeSet, a: Address) {
    exists id :: ObjectKey(id) in Manifest(cs).writeKeys
      && (Owns(a, ValueOf(Find(objects, id))) || Owns(a, ValueOf(Next(objects, cs, id))))
  }

  lemma AnnouncedObject(objects: Objects, cs: ChangeSet, a: Address)
    requires !OwnObjectDeclared(objects, cs, a)
    ensures StepOf(objects, cs, a).before == map[]
  {
    var changes := ChangesOf(objects, cs);
    forall id | id in changes ensures !Owns(a, changes[id].before) && !Owns(a, changes[id].after) {
      TouchedIsWritten(cs, id);
    }
    assert StepOf(objects, cs, a).before.Keys == {};
  }

  /**
   An owner's record and objects change only if its key is declared, or it is the gas payer with
   a net debit, or it collects gas, or one of its objects is declared as written.
   */
  lemma AnnouncedOwner(books: Books, s: State, cs: ChangeSet, a: Address)
    requires OwnerKey(a) !in Manifest(cs).writeKeys && a !in cs.gasCredits && !OwnObjectDeclared(s.objects, cs, a)
    requires !(a in cs.ownerDeltas && ParallelSafeDebit(cs, a))
    ensures AccountAt(Effected(books, s, cs).accounts, a) == AccountAt(s.accounts, a)
    ensures BookOf(Effected(books, s, cs), a) == BookOf(s, a)
  {
    OwnerKeyWritten(cs, a);
    AnnouncedObject(s.objects, cs, a);
    AccountOfEffect(books, s, cs, a);
    BookOfEffect(books, s, cs, a);
  }
}
