/**
 * `CtznsDAO`: create, read and update imports of citizens over the `imports`
 * collection. Each method follows the statements of its Python counterpart
 * and is proved to compute what `Citizens.Admit` and `Citizens.Edit` say.
 */
module Dao {
  import opened Wrappers
  import opened Errors
  import opened Citizens
  import Dates
  import opened Store

  class CitizensDao {
    /** `self.v`: the compiled schemas. */
    const v: Validator
    /** `self.collection`: the `imports` collection. */
    const imports: ImportsCollection

    /**
     * The import ids in use are 1, 2, ..., n: `create` gives each import
     * `count + 1` and the layer never deletes one. This is how the layer uses
     * the collection, not a rule of the collection.
     */
    ghost predicate Valid()
      reads this, imports
    {
      forall id :: id in imports.docs <==> 1 <= id <= |imports.docs|
    }

    constructor (imports: ImportsCollection, v: Validator)
      requires forall id :: id in imports.docs <==> 1 <= id <= |imports.docs|
      ensures Valid() && this.imports == imports && this.v == v
    {
      this.imports := imports;
      this.v := v;
    }

    /**
     * `create(imp)`: nothing is stored unless the whole payload is admitted;
     * then the citizens are stored, keyed by id, as import `count + 1`.
     */
    method Create(imp: Import) returns (r: Result<int, Error>)
      requires Valid()
      modifies imports
      ensures Valid()
      ensures Admit(v, imp).Failure? ==>
        r == Failure(Admit(v, imp).error) && imports.docs == old(imports.docs)
      ensures Admit(v, imp).Success? ==>
        && r == Success(|old(imports.docs)| + 1)
        && imports.docs == old(imports.docs)[|old(imports.docs)| + 1 := Admit(v, imp).value]
    {
      if !v.forImp(imp) {
        return Failure(SchemaError(BadImport));
      }
      var staged := StageCitizens(v, imp.citizens);
      if staged.Failure? {
        return Failure(staged.error);
      }
      var ctzns := staged.value;
      var fault := CheckSymmetric(ctzns, imp.citizens);
      if fault.Some? {
        return Failure(fault.value);
      }
      var count := imports.CountDocuments();
      var id := count + 1;
      var ok := imports.InsertOne(id, ctzns);
      assert ok;
      r := Success(id);
    }

    /** `read(imp_id)`: the stored citizens, or NotFound. */
    method Read(id: int) returns (r: Result<Batch, Error>)
      ensures r == if id in imports.docs then Success(imports.docs[id])
                   else Failure(NotFound(NoSuchImport))
    {
      var ctzns := imports.FindOne(id);
      if ctzns.None? {
        return Failure(NotFound(NoSuchImport));
      }
      r := Success(ctzns.value);
    }

    /**
     * `read` of the id `create` returns gives back the payload's citizens
     * keyed by id, with unique ids and a symmetric relatives relation.
     */
    method CreateThenRead(imp: Import) returns (id: Result<int, Error>, back: Result<Batch, Error>)
      requires Valid()
      modifies imports
      ensures Valid()
      ensures id.Failure? ==> imports.docs == old(imports.docs)
      ensures id.Success? ==> back.Success? && HoldsExactly(back.value, imp.citizens)
      ensures id.Success? ==> UniqueIds(imp.citizens) && Symmetric(back.value)
    {
      id := Create(imp);
      if id.Failure? {
        back := Failure(id.error);
        return;
      }
      back := Read(id.value);
      StageContents(v, imp.citizens);
      AdmitSpec(v, imp, back.value);
    }

    /**
     * `update(imp_id, ctzn_id, flds)`: on failure nothing is written; on
     * success the import becomes `Edit` of its citizens and the updated
     * citizen is returned.
     */
    method Update(impId: int, cid: int, p: Patch) returns (r: Result<Citizen, Error>)
      requires Valid()
      modifies imports
      ensures Valid()
      ensures impId !in old(imports.docs) ==>
        r == Failure(NotFound(NoSuchImport)) && imports.docs == old(imports.docs)
      ensures impId in old(imports.docs) ==>
        match Edit(v, old(imports.docs)[impId], cid, p)
        case Failure(e) => r == Failure(e) && imports.docs == old(imports.docs)
        case Success(b) => r == Success(b[cid]) && imports.docs == old(imports.docs)[impId := b]
    {
      var found := Read(impId);
      if found.Failure? {
        return Failure(found.error);
      }
      var forUpd := Touch(v, found.value, cid, p);
      if forUpd.Failure? {
        return Failure(forUpd.error);
      }
      imports.UpdateOne(impId, forUpd.value);
      r := Success(forUpd.value[cid]);
    }
  }

  /**
   * The body of `update` between reading the import and writing it back
   * (api/orm.py:83-113): checks the citizen, the fields and the birth date,
   * propagates the relatives change to the relatives' records, merges the
   * fields into the citizen, and returns `ctzns_for_upd`, the records to
   * write back, which are exactly the touched citizens.
   */
  method Touch(v: Validator, ctzns: Batch, cid: int, p: Patch) returns (r: Result<Batch, Error>)
    ensures r.Failure? <==> Edit(v, ctzns, cid, p).Failure?
    ensures r.Failure? ==> r.error == Edit(v, ctzns, cid, p).error
    ensures r.Success? ==> r.value.Keys == Touched(ctzns, cid, p)
    ensures r.Success? ==> ctzns + r.value == Edit(v, ctzns, cid, p).value
  {
    if cid !in ctzns {
      return Failure(NotFound(NoSuchCitizen));
    }
    if !v.forUpd(p) {
      return Failure(SchemaError(BadPatch));
    }
    if p.birthDate.Some? {
      var date := Dates.CheckDate(p.birthDate.value);
      if date.Fail? {
        return Failure(date.error);
      }
    }
    var ctzn := ctzns[cid];
    var forUpd: Batch := map[];
    if p.relatives.Some? {
      var rels := p.relatives.value;
      var add := Added(ctzn.relatives, rels);
      var rem := Removed(ctzn.relatives, rels);
      var looked := LookUp(ctzns, add + rem);
      if looked.None? {
        return Failure(SchemaError(UnknownRelative));
      }
      var appended := AppendTo(looked.value, add, cid);
      var removed := RemoveFrom(appended, rem, cid);
      if removed.None? {
        ghost var k :| k in rem && cid !in appended[k].relatives;
        assert cid !in ctzns[k].relatives;
        return Failure(ValueError(NotInList));
      }
      forUpd := removed.value;
      ghost var linked := Propagate(ctzns, cid, add, rem);
      assert forall k :: k in forUpd ==> forUpd[k] == linked[k];
      // `ctzn` is the record in `ctzns_for_upd` when the citizen is its own relative
      if cid in forUpd {
        ctzn := forUpd[cid];
      }
      WriteBack(ctzns, linked, forUpd, cid, Merge(ctzn, p));
    }
    ctzn := Merge(ctzn, p);
    r := Success(forUpd[cid := ctzn]);
  }

  // ---------------------------------------------------------------------------
  // The loops of `create` and `update`, each proved against its specification

  /** The staging loop of `create` (api/orm.py:47-55). */
  method StageCitizens(v: Validator, cs: seq<Citizen>) returns (r: Result<Batch, Error>)
    ensures r == Stage(v, cs)
  {
    var ctzns: Batch := map[];
    var i := 0;
    while i < |cs|
      invariant 0 <= i <= |cs|
      invariant Stage(v, cs[..i]) == Success(ctzns)
    {
      var ctzn := cs[i];
      assert cs[..i + 1][..i] == cs[..i];
      if !v.forCrt(ctzn) {
        StageStops(v, cs, i + 1);
        return Failure(SchemaError(BadCitizen));
      }
      var date := Dates.CheckDate(ctzn.birthDate);
      if date.Fail? {
        StageStops(v, cs, i + 1);
        return Failure(date.error);
      }
      if ctzn.id in ctzns {
        StageStops(v, cs, i + 1);
        return Failure(SchemaError(DuplicateIds));
      }
      ctzns := ctzns[ctzn.id := ctzn];
      i := i + 1;
    }
    assert cs[..i] == cs;
    r := Success(ctzns);
  }

  /** The inner loop of the bidirectionality check (api/orm.py:58-64). */
  method CheckRelatives(b: Batch, id: int, rels: seq<int>) returns (r: Option<Error>)
    ensures r == ScanRelatives(b, id, rels)
  {
    var j := 0;
    while j < |rels|
      invariant 0 <= j <= |rels|
      invariant ScanRelatives(b, id, rels[..j]) == None
    {
      var relId := rels[j];
      assert rels[..j + 1][..j] == rels[..j];
      if relId !in b {
        ScanRelativesStops(b, id, rels, j + 1);
        return Some(KeyError(relId));
      }
      var rel := b[relId];
      if id !in rel.relatives {
        ScanRelativesStops(b, id, rels, j + 1);
        return Some(SchemaError(NotBidirectional));
      }
      j := j + 1;
    }
    assert rels[..j] == rels;
    r := None;
  }

  /** The outer loop of the bidirectionality check (api/orm.py:57-64). */
  method CheckSymmetric(b: Batch, cs: seq<Citizen>) returns (r: Option<Error>)
    ensures r == ScanBatch(b, cs)
  {
    var i := 0;
    while i < |cs|
      invariant 0 <= i <= |cs|
      invariant ScanBatch(b, cs[..i]) == None
    {
      assert cs[..i + 1][..i] == cs[..i];
      var fault := CheckRelatives(b, cs[i].id, cs[i].relatives);
      if fault.Some? {
        ScanBatchStops(b, cs, i + 1);
        return fault;
      }
      i := i + 1;
    }
    assert cs[..i] == cs;
    r := None;
  }

  /**
   * The look-up loop of `update` (api/orm.py:100-104): the records of the
   * touched relatives, or None when one of them is not in the import.
   */
  method LookUp(b: Batch, ids: set<int>) returns (r: Option<Batch>)
    ensures r.None? <==> !(ids <= b.Keys)
    ensures r.Some? ==> r.value == map k | k in ids :: b[k]
  {
    var found: Batch := map[];
    var todo := ids;
    while todo != {}
      invariant todo <= ids
      invariant found.Keys == ids - todo
      invariant forall k :: k in found ==> k in b && found[k] == b[k]
      decreases todo
    {
      HasMember(todo);
      var relId :| relId in todo;
      if relId !in b {
        assert relId in ids && relId !in b.Keys;
        return None;
      }
      found := found[relId := b[relId]];
      todo := todo - {relId};
    }
    assert found.Keys == ids by {
      assert forall k :: k in ids ==> k in ids - todo;
    }
    assert ids <= b.Keys by {
      forall k | k in ids ensures k in b.Keys {
        assert k in found;
      }
    }
    ghost var fetched := map k | k in ids :: b[k];
    assert found.Keys == fetched.Keys;
    assert forall k :: k in found ==> found[k] == fetched[k];
    assert found == fetched;
    r := Some(found);
  }

  /** `for rel_id in rels_add: ...append(ctzn_id)` (api/orm.py:106-107). */
  method AppendTo(recs: Batch, add: set<int>, cid: int) returns (r: Batch)
    requires add <= recs.Keys
    ensures r.Keys == recs.Keys
    ensures forall k :: k in r ==> r[k] == if k in add then Link(recs[k], cid) else recs[k]
  {
    r := recs;
    var todo := add;
    while todo != {}
      invariant todo <= add
      invariant r.Keys == recs.Keys
      invariant forall k :: k in r ==> r[k] == if k in add - todo then Link(recs[k], cid) else recs[k]
      decreases todo
    {
      HasMember(todo);
      var relId :| relId in todo;
      r := r[relId := Link(r[relId], cid)];
      todo := todo - {relId};
    }
  }

  /**
   * `for rel_id in rels_rem: ...remove(ctzn_id)` (api/orm.py:109-110): None
   * where `list.remove` raises because the citizen is not listed.
   */
  method RemoveFrom(recs: Batch, rem: set<int>, cid: int) returns (r: Option<Batch>)
    requires rem <= recs.Keys
    ensures r.None? <==> exists k :: k in rem && cid !in recs[k].relatives
    ensures r.Some? ==> r.value.Keys == recs.Keys
    ensures r.Some? ==> forall k :: k in recs ==>
      (k in rem ==> cid in recs[k].relatives && r.value[k] == Unlink(recs[k], cid)) &&
      (k !in rem ==> r.value[k] == recs[k])
  {
    var out := recs;
    var todo := rem;
    while todo != {}
      invariant todo <= rem
      invariant out.Keys == recs.Keys
      invariant forall k :: k in rem - todo ==> cid in recs[k].relatives
      invariant forall k :: k in out ==>
        out[k] == if k in rem - todo then Unlink(recs[k], cid) else recs[k]
      decreases todo
    {
      HasMember(todo);
      var relId :| relId in todo;
      if cid !in out[relId].relatives {
        return None;
      }
      out := out[relId := Unlink(out[relId], cid)];
      todo := todo - {relId};
    }
    r := Some(out);
  }

  /** Writing the touched records back over a batch gives the edited batch. */
  lemma WriteBack(b: Batch, linked: Batch, touched: Batch, cid: int, c: Citizen)
    requires touched.Keys <= b.Keys && linked.Keys == b.Keys
    requires forall k :: k in touched ==> touched[k] == linked[k]
    requires forall k :: k in b && k !in touched ==> b[k] == linked[k]
    ensures b + touched[cid := c] == linked[cid := c]
  {
    var written, edited := b + touched[cid := c], linked[cid := c];
    assert written.Keys == edited.Keys;
    forall k | k in written ensures written[k] == edited[k] {
    }
  }

  /** A set with no members is empty. */
  lemma NoMembersEmpty(s: set<int>)
    ensures (forall x :: x !in s) ==> s == {}
  {
    if forall x :: x !in s {
      assert s == {};
    }
  }

  /** A non-empty set has a member to pick. */
  lemma HasMember(s: set<int>)
    requires s != {}
    ensures exists x :: x in s
  {
    NoMembersEmpty(s);
  }
}
