/**
 * The citizens of one import and what `CtznsDAO.create` and `CtznsDAO.update`
 * decide about them, as functions of values: `Admit` is the verdict of
 * `create` on a payload, `Edit` the new state of an import after `update`.
 * The methods in module Dao are proved to compute exactly these.
 */
module Citizens {
  import opened Wrappers
  import opened Errors
  import Dates

  /** A value of an attribute the data-access layer does not interpret. */
  datatype Scalar = Int(i: int) | Text(s: string)

  /**
   * A citizen record. `citizen_id`, `birth_date` and `relatives` are the keys
   * the layer reads; town, street, name and the rest are carried in `attrs`.
   */
  datatype Citizen = Citizen(
    id: int,
    birthDate: string,
    relatives: seq<int>,
    attrs: map<string, Scalar>)

  /** The fields of an update; `citizen_id` is not among them. */
  datatype Patch = Patch(
    birthDate: Option<string>,
    relatives: Option<seq<int>>,
    attrs: map<string, Scalar>)

  /** The payload of `create`: the `citizens` list. */
  datatype Import = Import(citizens: seq<Citizen>)

  /** The citizens of one stored import, keyed by citizen id. */
  type Batch = map<int, Citizen>

  /**
   * The three compiled JSON schemas of `Validation` (`for_imp`, `for_crt`,
   * `for_upd`): each accepts or rejects its input.
   */
  datatype Validator = Validator(
    forImp: Import -> bool,
    forCrt: Citizen -> bool,
    forUpd: Patch -> bool)

  // ---------------------------------------------------------------------------
  // Relations on a batch

  /** The relatives relation is symmetric and stays inside the batch. */
  ghost predicate Symmetric(b: Batch) {
    forall a, r :: a in b && r in b[a].relatives ==> r in b && a in b[r].relatives
  }

  /** No id occurs twice in a relatives list. */
  ghost predicate Distinct(s: seq<int>) {
    forall x :: multiset(s)[x] <= 1
  }

  ghost predicate AllDistinct(b: Batch) {
    forall a :: a in b ==> Distinct(b[a].relatives)
  }

  function Elems(s: seq<int>): set<int> {
    set x | x in s
  }

  // ---------------------------------------------------------------------------
  // create: staging the citizens (api/orm.py:47-55)

  predicate Admissible(v: Validator, c: Citizen) {
    v.forCrt(c) && Dates.CheckDate(c.birthDate) == Pass
  }

  ghost predicate AllAdmissible(v: Validator, cs: seq<Citizen>) {
    forall i :: 0 <= i < |cs| ==> Admissible(v, cs[i])
  }

  ghost predicate UniqueIds(cs: seq<Citizen>) {
    forall i, j :: 0 <= i < j < |cs| ==> cs[i].id != cs[j].id
  }

  ghost function Ids(cs: seq<Citizen>): set<int> {
    set i | 0 <= i < |cs| :: cs[i].id
  }

  /** `b` holds the citizens of `cs`, each under its own id, and nothing else. */
  ghost predicate HoldsExactly(b: Batch, cs: seq<Citizen>) {
    && b.Keys == Ids(cs)
    && forall i :: 0 <= i < |cs| ==> b[cs[i].id] == cs[i]
  }

  /** One turn of the staging loop: schema, date, then the duplicate check. */
  function StageOne(v: Validator, staged: Batch, c: Citizen): Result<Batch, Error> {
    if !v.forCrt(c) then Failure(SchemaError(BadCitizen))
    else match Dates.CheckDate(c.birthDate)
      case Fail(e) => Failure(e)
      case Pass =>
        if c.id in staged then Failure(SchemaError(DuplicateIds))
        else Success(staged[c.id := c])
  }

  /** The staging loop over the citizens in input order; the first failure wins. */
  function Stage(v: Validator, cs: seq<Citizen>): (r: Result<Batch, Error>)
    ensures r.Failure? ==> r.error.SchemaError? || r.error.ValueError? || r.error.OverflowError?
    decreases |cs|
  {
    if cs == [] then Success(map[])
    else match Stage(v, cs[..|cs| - 1])
      case Failure(e) => Failure(e)
      case Success(staged) => StageOne(v, staged, cs[|cs| - 1])
  }

  /** Once a prefix fails, the whole staging fails with the same error. */
  lemma {:induction false} StageStops(v: Validator, cs: seq<Citizen>, k: nat)
    requires k <= |cs|
    requires Stage(v, cs[..k]).Failure?
    ensures Stage(v, cs) == Stage(v, cs[..k])
    decreases |cs|
  {
    if k < |cs| {
      var init := cs[..|cs| - 1];
      assert init[..k] == cs[..k];
      StageStops(v, init, k);
    } else {
      assert cs[..k] == cs;
    }
  }

  lemma IdsSnoc(init: seq<Citizen>, last: Citizen)
    ensures Ids(init + [last]) == Ids(init) + {last.id}
  {
    var cs := init + [last];
    forall x | x in Ids(cs) ensures x in Ids(init) + {last.id} {
      var i :| 0 <= i < |cs| && cs[i].id == x;
      if i < |init| {
        assert init[i] == cs[i];
        assert init[i].id in Ids(init);
      }
    }
    forall x | x in Ids(init) ensures x in Ids(cs) {
      var i :| 0 <= i < |init| && init[i].id == x;
      assert cs[i] == init[i];
      assert cs[i].id in Ids(cs);
    }
    assert cs[|init|] == last;
    assert last.id in Ids(cs);
  }

  lemma AllAdmissibleSnoc(v: Validator, init: seq<Citizen>, last: Citizen)
    ensures AllAdmissible(v, init + [last]) <==> AllAdmissible(v, init) && Admissible(v, last)
  {
    var cs := init + [last];
    if AllAdmissible(v, cs) {
      assert cs[|init|] == last;
      forall i | 0 <= i < |init| ensures Admissible(v, init[i]) {
        assert cs[i] == init[i];
      }
    }
  }

  lemma UniqueIdsSnoc(init: seq<Citizen>, last: Citizen)
    ensures UniqueIds(init + [last]) <==> UniqueIds(init) && last.id !in Ids(init)
  {
    var cs := init + [last];
    if UniqueIds(cs) {
      forall i, j | 0 <= i < j < |init| ensures init[i].id != init[j].id {
        assert init[i] == cs[i] && init[j] == cs[j];
      }
      forall i | 0 <= i < |init| ensures init[i].id != last.id {
        assert cs[i] == init[i] && cs[|init|] == last;
      }
    }
    if UniqueIds(init) && last.id !in Ids(init) {
      forall i, j | 0 <= i < j < |cs| ensures cs[i].id != cs[j].id {
        assert init[i] == cs[i];
        if j < |init| { assert init[j] == cs[j]; }
      }
    }
  }

  /**
   * Staging succeeds exactly when every citizen passes its schema and date
   * checks and no two share an id. With every citizen valid, the only failure
   * is the duplicate id; staging never raises KeyError.
   */
  lemma {:induction false} StageSpec(v: Validator, cs: seq<Citizen>)
    ensures Stage(v, cs).Success? <==> AllAdmissible(v, cs) && UniqueIds(cs)
    ensures Stage(v, cs).Failure? && AllAdmissible(v, cs) ==>
      Stage(v, cs).error == SchemaError(DuplicateIds)
    ensures Stage(v, cs).Failure? ==> !Stage(v, cs).error.KeyError?
    decreases |cs|
  {
    if cs != [] {
      var init, last := cs[..|cs| - 1], cs[|cs| - 1];
      assert cs == init + [last];
      StageSpec(v, init);
      AllAdmissibleSnoc(v, init, last);
      UniqueIdsSnoc(init, last);
      if Stage(v, init).Success? {
        StageContents(v, init);
      }
    }
  }

  /** A successful staging holds every citizen under its id, and nothing else. */
  lemma {:induction false} StageContents(v: Validator, cs: seq<Citizen>)
    requires Stage(v, cs).Success?
    ensures HoldsExactly(Stage(v, cs).value, cs)
    decreases |cs|
  {
    if cs != [] {
      var init, last := cs[..|cs| - 1], cs[|cs| - 1];
      assert cs == init + [last];
      StageContents(v, init);
      IdsSnoc(init, last);
      var staged := Stage(v, init).value;
      var b := Stage(v, cs).value;
      assert b == staged[last.id := last];
      forall i | 0 <= i < |cs| ensures b[cs[i].id] == cs[i] {
        if i < |cs| - 1 {
          assert cs[i] == init[i];
          assert cs[i].id in Ids(init);
        }
      }
    }
  }

  // ---------------------------------------------------------------------------
  // create: the bidirectionality check (api/orm.py:57-64)

  /** `rel = ctzns[str(rel_id)]` and `int(ctzn_id) not in rel["relatives"]`. */
  function RelativeFault(b: Batch, id: int, r: int): Option<Error> {
    if r !in b then Some(KeyError(r))
    else if id !in b[r].relatives then Some(SchemaError(NotBidirectional))
    else None
  }

  /** The inner loop over one citizen's relatives; the first fault wins. */
  function ScanRelatives(b: Batch, id: int, rels: seq<int>): (r: Option<Error>)
    ensures r.Some? ==> r.value.KeyError? || r.value == SchemaError(NotBidirectional)
    ensures r.Some? && r.value.KeyError? ==> r.value.key !in b
    decreases |rels|
  {
    if rels == [] then None
    else match ScanRelatives(b, id, rels[..|rels| - 1])
      case Some(e) => Some(e)
      case None => RelativeFault(b, id, rels[|rels| - 1])
  }

  /** The outer loop over the staged citizens, in input order. */
  function ScanBatch(b: Batch, cs: seq<Citizen>): (r: Option<Error>)
    ensures r.Some? ==> r.value.KeyError? || r.value == SchemaError(NotBidirectional)
    ensures r.Some? && r.value.KeyError? ==> r.value.key !in b
    decreases |cs|
  {
    if cs == [] then None
    else match ScanBatch(b, cs[..|cs| - 1])
      case Some(e) => Some(e)
      case None => ScanRelatives(b, cs[|cs| - 1].id, cs[|cs| - 1].relatives)
  }

  lemma {:induction false} ScanRelativesStops(b: Batch, id: int, rels: seq<int>, k: nat)
    requires k <= |rels|
    requires ScanRelatives(b, id, rels[..k]).Some?
    ensures ScanRelatives(b, id, rels) == ScanRelatives(b, id, rels[..k])
    decreases |rels|
  {
    if k < |rels| {
      var init := rels[..|rels| - 1];
      assert init[..k] == rels[..k];
      ScanRelativesStops(b, id, init, k);
    } else {
      assert rels[..k] == rels;
    }
  }

  lemma {:induction false} ScanBatchStops(b: Batch, cs: seq<Citizen>, k: nat)
    requires k <= |cs|
    requires ScanBatch(b, cs[..k]).Some?
    ensures ScanBatch(b, cs) == ScanBatch(b, cs[..k])
    decreases |cs|
  {
    if k < |cs| {
      var init := cs[..|cs| - 1];
      assert init[..k] == cs[..k];
      ScanBatchStops(b, init, k);
    } else {
      assert cs[..k] == cs;
    }
  }

  /** Citizen `a` listing `r` is answered by `r` listing `a`. */
  ghost predicate Reciprocated(b: Batch, a: int, r: int) {
    r in b && a in b[r].relatives
  }

  ghost predicate AllReciprocated(b: Batch, cs: seq<Citizen>) {
    forall i, j :: 0 <= i < |cs| && 0 <= j < |cs[i].relatives| ==>
      Reciprocated(b, cs[i].id, cs[i].relatives[j])
  }

  /**
   * The inner loop passes exactly when every listed relative lists the
   * citizen back; a KeyError names a listed id that is not in the batch.
   */
  lemma {:induction false} ScanRelativesSpec(b: Batch, id: int, rels: seq<int>)
    ensures ScanRelatives(b, id, rels) == None <==>
      forall j :: 0 <= j < |rels| ==> Reciprocated(b, id, rels[j])
    ensures ScanRelatives(b, id, rels) == Some(SchemaError(NotBidirectional)) ==>
      exists j :: 0 <= j < |rels| && rels[j] in b && id !in b[rels[j]].relatives
    ensures forall r :: ScanRelatives(b, id, rels) == Some(KeyError(r)) ==> r in rels && r !in b
    ensures ScanRelatives(b, id, rels).Some? ==>
      ScanRelatives(b, id, rels).value.KeyError? ||
      ScanRelatives(b, id, rels).value == SchemaError(NotBidirectional)
    decreases |rels|
  {
    if rels != [] {
      var init := rels[..|rels| - 1];
      ScanRelativesSpec(b, id, init);
      forall j | 0 <= j < |init| ensures init[j] == rels[j] { }
      if ScanRelatives(b, id, init) == None && ScanRelatives(b, id, rels) == None {
        forall j | 0 <= j < |rels| ensures Reciprocated(b, id, rels[j]) {
          if j < |init| { assert init[j] == rels[j]; }
        }
      }
    }
  }

  /** The nested loops pass exactly when every citizen's relatives list it back. */
  lemma {:induction false} ScanBatchSpec(b: Batch, cs: seq<Citizen>)
    ensures ScanBatch(b, cs) == None <==> AllReciprocated(b, cs)
    ensures ScanBatch(b, cs) == Some(SchemaError(NotBidirectional)) ==>
      exists i, j :: 0 <= i < |cs| && 0 <= j < |cs[i].relatives| &&
        cs[i].relatives[j] in b && cs[i].id !in b[cs[i].relatives[j]].relatives
    ensures forall r :: ScanBatch(b, cs) == Some(KeyError(r)) ==>
      r !in b && exists i :: 0 <= i < |cs| && r in cs[i].relatives
    ensures ScanBatch(b, cs).Some? ==>
      ScanBatch(b, cs).value.KeyError? ||
      ScanBatch(b, cs).value == SchemaError(NotBidirectional)
    decreases |cs|
  {
    if cs != [] {
      var init, last := cs[..|cs| - 1], cs[|cs| - 1];
      ScanBatchSpec(b, init);
      ScanRelativesSpec(b, last.id, last.relatives);
      forall i | 0 <= i < |init| ensures init[i] == cs[i] { }
      if ScanBatch(b, init) == None && ScanBatch(b, cs) == None {
        forall i, j | 0 <= i < |cs| && 0 <= j < |cs[i].relatives|
          ensures Reciprocated(b, cs[i].id, cs[i].relatives[j])
        {
          if i < |init| { assert init[i] == cs[i]; }
        }
      }
      if ScanBatch(b, init) == None && ScanBatch(b, cs) == Some(SchemaError(NotBidirectional)) {
        var j :| 0 <= j < |last.relatives| && last.relatives[j] in b &&
          last.id !in b[last.relatives[j]].relatives;
        assert cs[|cs| - 1] == last;
      }
    }
  }

  /** For a batch keyed by its own citizens, the check is the symmetry of the batch. */
  lemma AllReciprocatedIsSymmetric(b: Batch, cs: seq<Citizen>)
    requires HoldsExactly(b, cs)
    ensures AllReciprocated(b, cs) <==> Symmetric(b)
  {
    if AllReciprocated(b, cs) {
      forall a, r | a in b && r in b[a].relatives ensures r in b && a in b[r].relatives {
        var i :| 0 <= i < |cs| && cs[i].id == a;
        var j :| 0 <= j < |cs[i].relatives| && cs[i].relatives[j] == r;
        assert Reciprocated(b, cs[i].id, cs[i].relatives[j]);
      }
    }
    if Symmetric(b) {
      forall i, j | 0 <= i < |cs| && 0 <= j < |cs[i].relatives|
        ensures Reciprocated(b, cs[i].id, cs[i].relatives[j])
      {
        assert cs[i].id in Ids(cs);
        assert b[cs[i].id] == cs[i];
        assert cs[i].relatives[j] in b[cs[i].id].relatives;
      }
    }
  }

  // ---------------------------------------------------------------------------
  // create: the whole verdict (api/orm.py:43-70)

  /** What `create` stores for a payload, or the exception it raises first. */
  function Admit(v: Validator, imp: Import): (r: Result<Batch, Error>)
    ensures r.Success? ==> v.forImp(imp)
    ensures r.Failure? ==> !r.error.NotFound?
  {
    if !v.forImp(imp) then Failure(SchemaError(BadImport))
    else match Stage(v, imp.citizens)
      case Failure(e) => Failure(e)
      case Success(b) =>
        match ScanBatch(b, imp.citizens)
        case Some(e) => Failure(e)
        case None => Success(b)
  }

  /**
   * `create` accepts a payload exactly when the payload passes its schema,
   * every citizen passes its schema and date check, the ids are unique and
   * the relatives relation is symmetric; what it stores is then the payload's
   * citizens keyed by id.
   */
  lemma AdmitSpec(v: Validator, imp: Import, b: Batch)
    requires HoldsExactly(b, imp.citizens)
    ensures Admit(v, imp).Success? <==>
      v.forImp(imp) && AllAdmissible(v, imp.citizens) && UniqueIds(imp.citizens) && Symmetric(b)
    ensures Admit(v, imp).Success? ==> Admit(v, imp).value == b
  {
    var cs := imp.citizens;
    StageSpec(v, cs);
    if Stage(v, cs).Success? {
      var staged := Stage(v, cs).value;
      StageContents(v, cs);
      assert staged == b by {
        forall k | k in b ensures staged[k] == b[k] {
          var i :| 0 <= i < |cs| && cs[i].id == k;
        }
      }
      ScanBatchSpec(b, cs);
      AllReciprocatedIsSymmetric(b, cs);
    }
  }

  /** Two citizens with one id: `create` fails before anything is stored. */
  lemma DuplicateIdsRejected(v: Validator, imp: Import)
    requires !UniqueIds(imp.citizens)
    ensures Admit(v, imp).Failure?
    ensures AllAdmissible(v, imp.citizens) && v.forImp(imp) ==>
      Admit(v, imp).error == SchemaError(DuplicateIds)
  {
    StageSpec(v, imp.citizens);
  }

  /**
   * A citizen lists a relative that is not in the payload, or that does not
   * list it back: `create` fails; a KeyError names an id outside the payload.
   */
  lemma AsymmetryRejected(v: Validator, imp: Import, i: nat, j: nat)
    requires i < |imp.citizens| && j < |imp.citizens[i].relatives|
    requires forall k :: 0 <= k < |imp.citizens| ==>
      imp.citizens[k].id != imp.citizens[i].relatives[j] ||
      imp.citizens[i].id !in imp.citizens[k].relatives
    ensures Admit(v, imp).Failure?
    ensures forall r :: Admit(v, imp) == Failure(KeyError(r)) ==> r !in Ids(imp.citizens)
  {
    var cs := imp.citizens;
    StageSpec(v, cs);
    if Stage(v, cs).Success? && v.forImp(imp) {
      var b := Stage(v, cs).value;
      StageContents(v, cs);
      ScanBatchSpec(b, cs);
      var r := cs[i].relatives[j];
      if r in b {
        var k :| 0 <= k < |cs| && cs[k].id == r;
        assert b[r] == cs[k];
      }
      assert !Reciprocated(b, cs[i].id, r);
    }
  }

  // ---------------------------------------------------------------------------
  // update (api/orm.py:80-118)

  /** `ctzn.update(flds)`: the fields present in the patch overwrite the record's. */
  function Merge(c: Citizen, p: Patch): (r: Citizen)
    ensures r.id == c.id
    ensures r.relatives == if p.relatives.Some? then p.relatives.value else c.relatives
    ensures r.birthDate == if p.birthDate.Some? then p.birthDate.value else c.birthDate
    ensures r.attrs.Keys == c.attrs.Keys + p.attrs.Keys
    ensures forall k :: k in p.attrs ==> r.attrs[k] == p.attrs[k]
    ensures forall k :: k in c.attrs && k !in p.attrs ==> r.attrs[k] == c.attrs[k]
  {
    c.(birthDate := if p.birthDate.Some? then p.birthDate.value else c.birthDate,
       relatives := if p.relatives.Some? then p.relatives.value else c.relatives,
       attrs := c.attrs + p.attrs)
  }

  /** `list.remove(x)`: drop the first occurrence of `x`. */
  function RemoveFirst(s: seq<int>, x: int): (r: seq<int>)
    requires x in s
    ensures multiset(r) == multiset(s) - multiset{x}
    decreases |s|
  {
    assert s == [s[0]] + s[1..];
    if s[0] == x then s[1..] else [s[0]] + RemoveFirst(s[1..], x)
  }

  /** In a list without repeats, `remove` takes the id out entirely. */
  lemma RemoveFirstDistinct(s: seq<int>, x: int)
    requires x in s && Distinct(s)
    ensures x !in RemoveFirst(s, x)
    ensures Distinct(RemoveFirst(s, x))
    ensures Elems(RemoveFirst(s, x)) == Elems(s) - {x}
  {
    var r := RemoveFirst(s, x);
    assert multiset(s)[x] == 1;
    assert multiset(r)[x] == 0;
    forall y ensures y in r <==> y in s && y != x {
      assert y in r <==> multiset(r)[y] > 0;
      assert y in s <==> multiset(s)[y] > 0;
    }
  }

  /** `rels_add`: ids in the new list but not the old. */
  function Added(old_: seq<int>, rels: seq<int>): set<int> {
    Elems(rels) - Elems(old_)
  }

  /** `rels_rem`: ids in the old list but not the new. */
  function Removed(old_: seq<int>, rels: seq<int>): set<int> {
    Elems(old_) - Elems(rels)
  }

  /** `.append(ctzn_id)` on a relative's list. */
  function Link(c: Citizen, id: int): Citizen {
    c.(relatives := c.relatives + [id])
  }

  /** `.remove(ctzn_id)` on a relative's list. */
  function Unlink(c: Citizen, id: int): Citizen
    requires id in c.relatives
  {
    c.(relatives := RemoveFirst(c.relatives, id))
  }

  /** Every id in `rem` is listed back by its citizen, so `remove` cannot fail. */
  ghost predicate Unlinkable(b: Batch, id: int, rem: set<int>) {
    forall k :: k in rem && k in b ==> id in b[k].relatives
  }

  /** The two loops at api/orm.py:106-110, applied to the citizens of the batch. */
  function Propagate(b: Batch, id: int, add: set<int>, rem: set<int>): (r: Batch)
    requires Unlinkable(b, id, rem)
    ensures r.Keys == b.Keys
  {
    map k | k in b ::
      if k in add then Link(b[k], id)
      else if k in rem then Unlink(b[k], id)
      else b[k]
  }
  /**
   * Each added relative gets the id appended, each removed one loses one
   * copy of it, and every other citizen is left as it was.
   */
  lemma PropagateSpec(b: Batch, id: int, add: set<int>, rem: set<int>)
    requires Unlinkable(b, id, rem)
    ensures forall k :: k in b && k in add ==>
      Propagate(b, id, add, rem)[k].relatives == b[k].relatives + [id]
    ensures forall k :: k in b && k !in add && k in rem ==>
      multiset(Propagate(b, id, add, rem)[k].relatives) == multiset(b[k].relatives) - multiset{id}
    ensures forall k :: k in b && k !in add && k !in rem ==> Propagate(b, id, add, rem)[k] == b[k]
  {
  }


  /**
   * The import after `update(imp, cid, p)` on its citizens `b`, or the
   * exception raised first: unknown citizen, rejected fields, a bad birth date,
   * a relative outside the import, or a `remove` that finds nothing to remove.
   */
  function Edit(v: Validator, b: Batch, cid: int, p: Patch): (r: Result<Batch, Error>)
    ensures r.Success? ==> cid in b && v.forUpd(p) && r.value.Keys == b.Keys
    ensures r.Success? ==>
      r.value[cid].relatives == if p.relatives.Some? then p.relatives.value else b[cid].relatives
    ensures r.Failure? ==> !r.error.KeyError? && r.error != NotFound(NoSuchImport)
    ensures cid !in b ==> r == Failure(NotFound(NoSuchCitizen))
  {
    if cid !in b then Failure(NotFound(NoSuchCitizen))
    else if !v.forUpd(p) then Failure(SchemaError(BadPatch))
    else if p.birthDate.Some? && Dates.CheckDate(p.birthDate.value).Fail? then
      Failure(Dates.CheckDate(p.birthDate.value).error)
    else match p.relatives
      case None => Success(b[cid := Merge(b[cid], p)])
      case Some(rels) =>
        var add := Added(b[cid].relatives, rels);
        var rem := Removed(b[cid].relatives, rels);
        if !(add + rem <= b.Keys) then Failure(SchemaError(UnknownRelative))
        else if !(forall k :: k in rem ==> cid in b[k].relatives) then
          Failure(ValueError(NotInList))
        else
          var linked := Propagate(b, cid, add, rem);
          Success(linked[cid := Merge(linked[cid], p)])
  }

  /** The ids whose records `update` writes: the citizen and every touched relative. */
  function Touched(b: Batch, cid: int, p: Patch): set<int>
    requires cid in b
  {
    {cid} + match p.relatives
      case None => {}
      case Some(rels) => Added(b[cid].relatives, rels) + Removed(b[cid].relatives, rels)
  }

  /**
   * A successful update keeps the set of citizens, gives the citizen the
   * merged record, and leaves every citizen it does not touch as it was.
   */
  lemma EditFrame(v: Validator, b: Batch, cid: int, p: Patch)
    requires Edit(v, b, cid, p).Success?
    ensures cid in b
    ensures Edit(v, b, cid, p).value.Keys == b.Keys
    ensures Edit(v, b, cid, p).value[cid] == Merge(b[cid], p)
    ensures forall k :: k in b && k !in Touched(b, cid, p) ==> Edit(v, b, cid, p).value[k] == b[k]
  {
    var e := Edit(v, b, cid, p).value;
    if p.relatives.Some? {
      var linked := Propagate(b, cid, Added(b[cid].relatives, p.relatives.value),
                              Removed(b[cid].relatives, p.relatives.value));
      assert e[cid] == Merge(linked[cid], p);
      assert Merge(linked[cid], p) == Merge(b[cid], p);
    }
  }

  /**
   * Under a symmetric relation every removed relative lists the citizen, so
   * the `remove` loop never raises.
   */
  lemma SymmetricNeverMissesRemove(v: Validator, b: Batch, cid: int, p: Patch)
    requires Symmetric(b)
    ensures Edit(v, b, cid, p) != Failure(ValueError(NotInList))
  {
  }

  /**
   * In a symmetric batch an update with a relatives list fails as unknown
   * exactly when the list names an id that is not a citizen of the batch.
   */
  lemma UnknownRelativeRejected(v: Validator, b: Batch, cid: int, p: Patch, rels: seq<int>)
    requires Symmetric(b) && cid in b && v.forUpd(p) && p.relatives == Some(rels)
    requires p.birthDate.Some? ==> Dates.CheckDate(p.birthDate.value) == Pass
    ensures Edit(v, b, cid, p) == Failure(SchemaError(UnknownRelative)) <==>
      exists r :: r in rels && r !in b
    ensures Edit(v, b, cid, p).Failure? ==>
      Edit(v, b, cid, p) == Failure(SchemaError(UnknownRelative))
  {
    var add, rem := Added(b[cid].relatives, rels), Removed(b[cid].relatives, rels);
    forall r | r in rem ensures r in b {
      assert r in b[cid].relatives;
    }
    if exists r :: r in rels && r !in b {
      var r :| r in rels && r !in b;
      assert r !in b[cid].relatives;
      assert r in add;
    }
    if !(add + rem <= b.Keys) {
      var r :| r in add + rem && r !in b;
      assert r in rels;
    }
  }

  /**
   * After an update that sets relatives, every added relative lists the
   * citizen and no removed relative does.
   */
  lemma EditLinks(v: Validator, b: Batch, cid: int, p: Patch, rels: seq<int>)
    requires Edit(v, b, cid, p).Success? && p.relatives == Some(rels)
    ensures forall r :: r in Added(b[cid].relatives, rels) ==>
      cid in Edit(v, b, cid, p).value[r].relatives
    ensures AllDistinct(b) ==> forall r :: r in Removed(b[cid].relatives, rels) ==>
      cid !in Edit(v, b, cid, p).value[r].relatives
  {
    var e := Edit(v, b, cid, p).value;
    var add, rem := Added(b[cid].relatives, rels), Removed(b[cid].relatives, rels);
    forall r | r in rem && AllDistinct(b) ensures cid !in e[r].relatives {
      if r != cid {
        RemoveFirstDistinct(b[r].relatives, cid);
      }
    }
  }

  /**
   * An update keeps a symmetric batch with duplicate-free lists symmetric and
   * duplicate-free, provided the new relatives list has no repeats.
   */
  lemma EditKeepsSymmetry(v: Validator, b: Batch, cid: int, p: Patch)
    requires Symmetric(b) && AllDistinct(b)
    requires Edit(v, b, cid, p).Success?
    requires p.relatives.Some? ==> Distinct(p.relatives.value)
    ensures Symmetric(Edit(v, b, cid, p).value)
    ensures AllDistinct(Edit(v, b, cid, p).value)
  {
    var e := Edit(v, b, cid, p).value;
    EditFrame(v, b, cid, p);
    match p.relatives
    case None =>
      assert forall k :: k in e ==> e[k].relatives == b[k].relatives;
    case Some(rels) =>
      var add, rem := Added(b[cid].relatives, rels), Removed(b[cid].relatives, rels);
      assert e[cid].relatives == rels;
      // the relatives list of every citizen other than `cid`
      forall k | k in b && k != cid
        ensures k in add ==> e[k].relatives == b[k].relatives + [cid] && cid !in b[k].relatives
        ensures k in rem ==> Elems(e[k].relatives) == Elems(b[k].relatives) - {cid}
        ensures k in rem ==> Distinct(e[k].relatives)
        ensures k !in add && k !in rem ==> e[k].relatives == b[k].relatives
      {
        if k in rem {
          RemoveFirstDistinct(b[k].relatives, cid);
        }
      }
      forall a, r | a in e && r in e[a].relatives ensures r in e && a in e[r].relatives {
        if a == cid {
          if r != cid {
            if r in b[cid].relatives {
              assert r !in rem;
              assert cid in b[r].relatives;
            } else {
              assert r in add;
            }
          }
        } else if r == cid {
          if a in add {
          } else if a in rem {
            assert false;
          } else {
            assert cid in b[a].relatives;
            assert a in b[cid].relatives;
            assert a !in Removed(b[cid].relatives, rels);
          }
        } else {
          assert r in b[a].relatives by {
            if a in rem { assert r in Elems(e[a].relatives); }
          }
          assert a in b[r].relatives;
          if r in rem {
            assert a in Elems(e[r].relatives);
          }
        }
      }
      forall a | a in e ensures Distinct(e[a].relatives) {
        if a != cid && a in add {
          assert multiset(b[a].relatives)[cid] == 0;
        }
      }
  }

  /** Setting relatives to the list already held changes no other citizen. */
  lemma SameRelativesTouchNothingElse(v: Validator, b: Batch, cid: int, p: Patch, rels: seq<int>)
    requires cid in b && p.relatives == Some(rels) && Elems(rels) == Elems(b[cid].relatives)
    requires Edit(v, b, cid, p).Success?
    ensures forall k :: k in b && k != cid ==> Edit(v, b, cid, p).value[k] == b[k]
  {
    EditFrame(v, b, cid, p);
    assert Touched(b, cid, p) == {cid};
  }

  /**
   * Citizens 1 and 2 with no relatives; updating 1's relatives to [2] makes
   * 2 list 1.
   */
  lemma LinkTwoCitizens(v: Validator, one: Citizen, two: Citizen)
    requires one.id == 1 && two.id == 2 && one.relatives == [] && two.relatives == []
    requires v.forUpd(Patch(None, Some([2]), map[]))
    ensures Edit(v, map[1 := one, 2 := two], 1, Patch(None, Some([2]), map[])).Success?
    ensures Edit(v, map[1 := one, 2 := two], 1, Patch(None, Some([2]), map[])).value[2].relatives == [1]
    ensures Edit(v, map[1 := one, 2 := two], 1, Patch(None, Some([2]), map[])).value[1].relatives == [2]
  {
    var b := map[1 := one, 2 := two];
    assert Added(b[1].relatives, [2]) == {2};
    assert Removed(b[1].relatives, [2]) == {};
  }

  /**
   * Why the lists must be free of repeats: if 2 lists 1 twice, `remove` drops
   * only one copy, and unlinking 1 from 2 leaves 2 listing 1 on its own.
   */
  lemma RepeatedRelativeBreaksSymmetry()
    ensures var v := Validator(_ => true, _ => true, _ => true);
      var b := map[1 := Citizen(1, "01.01.2000", [2], map[]), 2 := Citizen(2, "01.01.2000", [1, 1], map[])];
      var p := Patch(None, Some([]), map[]);
      Symmetric(b) && Edit(v, b, 1, p).Success? && !Symmetric(Edit(v, b, 1, p).value)
  {
    var v := Validator(_ => true, _ => true, _ => true);
    var b := map[1 := Citizen(1, "01.01.2000", [2], map[]), 2 := Citizen(2, "01.01.2000", [1, 1], map[])];
    var p := Patch(None, Some([]), map[]);
    assert Added(b[1].relatives, []) == {};
    assert Removed(b[1].relatives, []) == {2};
    var e := Edit(v, b, 1, p).value;
    assert RemoveFirst([1, 1], 1) == [1];
    assert 1 in e[2].relatives && e[1].relatives == [];
  }
}
