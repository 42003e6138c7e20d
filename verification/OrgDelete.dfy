/** Which provinces, cities and districts may be deleted, and what deleting them leaves intact. */
module OrgDelete {
  import opened Common

  /** An empty reference is none at all. */
  datatype City = City(id: string, provinceId: string)
  datatype Faculty = Faculty(id: string, provinceId: string, cityId: string)
  datatype District = District(id: string, provinceId: string, cityId: string)
  datatype School = School(id: string, provinceId: string, cityId: string, districtId: string)

  datatype Db = Db(
    provinces: seq<string>, cities: seq<City>, faculties: seq<Faculty>, districts: seq<District>, schools: seq<School>)

  datatype Kind = ProvinceKind | CityKind | DistrictKind | SchoolKind | FacultyKind | MajorKind

  datatype BlockedSets = BlockedSets(provinces: set<string>, cities: set<string>, districts: set<string>)

  // ---------- Who refers to whom ----------

  ghost predicate RefersToProvince(db: Db, id: string) {
    || (exists i :: 0 <= i < |db.cities| && db.cities[i].provinceId == id)
    || (exists i :: 0 <= i < |db.faculties| && db.faculties[i].provinceId == id)
    || (exists i :: 0 <= i < |db.districts| && db.districts[i].provinceId == id)
    || (exists i :: 0 <= i < |db.schools| && db.schools[i].provinceId == id)
  }

  ghost predicate RefersToCity(db: Db, id: string) {
    || (exists i :: 0 <= i < |db.districts| && db.districts[i].cityId == id)
    || (exists i :: 0 <= i < |db.schools| && db.schools[i].cityId == id)
  }

  ghost predicate RefersToDistrict(db: Db, id: string) {
    exists i :: 0 <= i < |db.schools| && db.schools[i].districtId == id
  }

  /** The sets hold exactly the ids that some tracked row refers to. */
  ghost predicate Exact(sets: BlockedSets, db: Db) {
    && (forall id :: id in sets.provinces <==> id != "" && RefersToProvince(db, id))
    && (forall id :: id in sets.cities <==> id != "" && RefersToCity(db, id))
    && (forall id :: id in sets.districts <==> id != "" && RefersToDistrict(db, id))
  }

  function WithId(ids: set<string>, id: string): set<string> {
    if id == "" then ids else ids + {id}
  }

  method BuildOrgDeleteBlockedSets(db: Db) returns (sets: BlockedSets)
    ensures Exact(sets, db)
  {
    var provinces: set<string>, cities: set<string>, districts: set<string> := {}, {}, {};
    for i := 0 to |db.cities|
      invariant forall id :: id in provinces <==> id != "" && RefersToProvince(Db([], db.cities[..i], [], [], []), id)
    {
      provinces := WithId(provinces, db.cities[i].provinceId);
      assert db.cities[..i + 1] == db.cities[..i] + [db.cities[i]];
    }
    assert db.cities[..|db.cities|] == db.cities;
    for i := 0 to |db.faculties|
      invariant forall id :: id in provinces <==>
        id != "" && RefersToProvince(Db([], db.cities, db.faculties[..i], [], []), id)
    {
      provinces := WithId(provinces, db.faculties[i].provinceId);
      assert db.faculties[..i + 1] == db.faculties[..i] + [db.faculties[i]];
    }
    assert db.faculties[..|db.faculties|] == db.faculties;
    provinces, cities := AddDistricts(db, provinces);
    provinces, cities, districts := AddSchools(db, provinces, cities);
    sets := BlockedSets(provinces, cities, districts);
  }

  method AddDistricts(db: Db, before: set<string>) returns (provinces: set<string>, cities: set<string>)
    requires forall id :: id in before <==> id != "" && RefersToProvince(Db([], db.cities, db.faculties, [], []), id)
    ensures forall id :: id in provinces <==>
      id != "" && RefersToProvince(Db([], db.cities, db.faculties, db.districts, []), id)
    ensures forall id :: id in cities <==> id != "" && RefersToCity(Db([], [], [], db.districts, []), id)
  {
    provinces, cities := before, {};
    for i := 0 to |db.districts|
      invariant forall id :: id in provinces <==>
        id != "" && RefersToProvince(Db([], db.cities, db.faculties, db.districts[..i], []), id)
      invariant forall id :: id in cities <==> id != "" && RefersToCity(Db([], [], [], db.districts[..i], []), id)
    {
      provinces := WithId(provinces, db.districts[i].provinceId);
      cities := WithId(cities, db.districts[i].cityId);
      assert db.districts[..i + 1] == db.districts[..i] + [db.districts[i]];
    }
    assert db.districts[..|db.districts|] == db.districts;
  }

  function FirstSchools(db: Db, n: nat): Db
    requires n <= |db.schools|
  {
    db.(schools := db.schools[..n])
  }

  lemma OneMoreSchool(db: Db, i: nat, id: string)
    requires i < |db.schools|
    ensures RefersToProvince(FirstSchools(db, i + 1), id)
       <==> RefersToProvince(FirstSchools(db, i), id) || db.schools[i].provinceId == id
    ensures RefersToCity(FirstSchools(db, i + 1), id)
       <==> RefersToCity(FirstSchools(db, i), id) || db.schools[i].cityId == id
    ensures RefersToDistrict(FirstSchools(db, i + 1), id)
       <==> RefersToDistrict(FirstSchools(db, i), id) || db.schools[i].districtId == id
  {
    var before, after := db.schools[..i], db.schools[..i + 1];
    assert after == before + [db.schools[i]];
    assert after[i] == db.schools[i];
  }

  lemma SchoolAdds(db: Db, i: nat, provinces: set<string>, cities: set<string>, districts: set<string>)
    requires i < |db.schools| && Exact(BlockedSets(provinces, cities, districts), FirstSchools(db, i))
    ensures var school := db.schools[i];
      Exact(BlockedSets(WithId(provinces, school.provinceId), WithId(cities, school.cityId),
                        WithId(districts, school.districtId)), FirstSchools(db, i + 1))
  {
    forall id ensures id in WithId(provinces, db.schools[i].provinceId)
      <==> id != "" && RefersToProvince(FirstSchools(db, i + 1), id)
    {
      OneMoreSchool(db, i, id);
    }
    forall id ensures id in WithId(cities, db.schools[i].cityId)
      <==> id != "" && RefersToCity(FirstSchools(db, i + 1), id)
    {
      OneMoreSchool(db, i, id);
    }
    forall id ensures id in WithId(districts, db.schools[i].districtId)
      <==> id != "" && RefersToDistrict(FirstSchools(db, i + 1), id)
    {
      OneMoreSchool(db, i, id);
    }
  }

  method AddSchools(db: Db, provincesBefore: set<string>, citiesBefore: set<string>)
    returns (provinces: set<string>, cities: set<string>, districts: set<string>)
    requires forall id :: id in provincesBefore <==>
      id != "" && RefersToProvince(Db([], db.cities, db.faculties, db.districts, []), id)
    requires forall id :: id in citiesBefore <==> id != "" && RefersToCity(Db([], [], [], db.districts, []), id)
    ensures Exact(BlockedSets(provinces, cities, districts), db)
  {
    provinces, cities, districts := provincesBefore, citiesBefore, {};
    for i := 0 to |db.schools|
      invariant Exact(BlockedSets(provinces, cities, districts), FirstSchools(db, i))
    {
      SchoolAdds(db, i, provinces, cities, districts);
      provinces := WithId(provinces, db.schools[i].provinceId);
      cities := WithId(cities, db.schools[i].cityId);
      districts := WithId(districts, db.schools[i].districtId);
    }
    assert db.schools[..|db.schools|] == db.schools;
  }

  predicate IsDeleteBlocked(kind: Kind, id: string, sets: BlockedSets) {
    match kind
    case ProvinceKind => id in sets.provinces
    case CityKind => id in sets.cities
    case DistrictKind => id in sets.districts
    case _ => false
  }

  method IsOrgEntityDeleteBlocked(kind: Kind, db: Db, id: string) returns (blocked: bool)
    ensures blocked <==> id != "" && match kind
      case ProvinceKind => RefersToProvince(db, id)
      case CityKind => RefersToCity(db, id)
      case DistrictKind => RefersToDistrict(db, id)
      case _ => false
  {
    var sets := BuildOrgDeleteBlockedSets(db);
    blocked := IsDeleteBlocked(kind, id, sets);
  }

  // ---------- Deleting ----------

  ghost predicate HasCity(db: Db, id: string) {
    exists i :: 0 <= i < |db.cities| && db.cities[i].id == id
  }

  ghost predicate HasDistrict(db: Db, id: string) {
    exists i :: 0 <= i < |db.districts| && db.districts[i].id == id
  }

  /** Every reference the rules track leads to a row. */
  ghost predicate Resolves(db: Db) {
    && (forall id :: id != "" && RefersToProvince(db, id) ==> id in db.provinces)
    && (forall id :: id != "" && RefersToCity(db, id) ==> HasCity(db, id))
    && (forall id :: id != "" && RefersToDistrict(db, id) ==> HasDistrict(db, id))
  }

  function DeleteRow(db: Db, kind: Kind, id: string): Db {
    match kind
    case ProvinceKind => db.(provinces := Filter(db.provinces, p => p != id))
    case CityKind => db.(cities := Filter(db.cities, (c: City) => c.id != id))
    case DistrictKind => db.(districts := Filter(db.districts, (d: District) => d.id != id))
    case SchoolKind => db.(schools := Filter(db.schools, (s: School) => s.id != id))
    case FacultyKind => db.(faculties := Filter(db.faculties, (f: Faculty) => f.id != id))
    case MajorKind => db
  }

  ghost predicate Allowed(db: Db, kind: Kind, id: string) {
    id != "" && match kind
      case ProvinceKind => !RefersToProvince(db, id)
      case CityKind => !RefersToCity(db, id)
      case DistrictKind => !RefersToDistrict(db, id)
      case _ => true
  }

  lemma FewerReferences(a: Db, b: Db)
    requires forall c :: c in b.cities ==> c in a.cities
    requires forall f :: f in b.faculties ==> f in a.faculties
    requires forall d :: d in b.districts ==> d in a.districts
    requires forall s :: s in b.schools ==> s in a.schools
    ensures forall id :: RefersToProvince(b, id) ==> RefersToProvince(a, id)
    ensures forall id :: RefersToCity(b, id) ==> RefersToCity(a, id)
    ensures forall id :: RefersToDistrict(b, id) ==> RefersToDistrict(a, id)
  {
    forall i | 0 <= i < |b.cities| ensures b.cities[i] in a.cities {
      assert b.cities[i] in b.cities;
    }
    forall i | 0 <= i < |b.faculties| ensures b.faculties[i] in a.faculties {
      assert b.faculties[i] in b.faculties;
    }
    forall i | 0 <= i < |b.districts| ensures b.districts[i] in a.districts {
      assert b.districts[i] in b.districts;
    }
    forall i | 0 <= i < |b.schools| ensures b.schools[i] in a.schools {
      assert b.schools[i] in b.schools;
    }
  }

  /** An unblocked delete leaves every tracked reference leading somewhere. */
  lemma DeleteKeepsResolving(db: Db, kind: Kind, id: string)
    requires Resolves(db) && Allowed(db, kind, id)
    ensures Resolves(DeleteRow(db, kind, id))
  {
    var after := DeleteRow(db, kind, id);
    FewerReferences(db, after);
    if kind.CityKind? {
      forall other | HasCity(db, other) && other != id ensures HasCity(after, other) {
        var i :| 0 <= i < |db.cities| && db.cities[i].id == other;
        assert db.cities[i] in after.cities;
      }
    } else if kind.DistrictKind? {
      forall other | HasDistrict(db, other) && other != id ensures HasDistrict(after, other) {
        var i :| 0 <= i < |db.districts| && db.districts[i].id == other;
        assert db.districts[i] in after.districts;
      }
    }
  }

  ghost predicate SameButFor(before: Db, after: Db, kind: Kind) {
    && (kind != ProvinceKind ==> after.provinces == before.provinces)
    && (kind != CityKind ==> after.cities == before.cities)
    && (kind != DistrictKind ==> after.districts == before.districts)
    && (kind != SchoolKind ==> after.schools == before.schools)
    && (kind != FacultyKind ==> after.faculties == before.faculties)
  }

  /** A delete takes the rows of the id out of the table of its kind, and nothing else anywhere. */
  lemma DeleteTakesOnlyIt(db: Db, kind: Kind, id: string)
    ensures var after := DeleteRow(db, kind, id);
      && SameButFor(db, after, kind)
      && (kind == ProvinceKind ==> forall p :: p in after.provinces <==> p in db.provinces && p != id)
      && (kind == CityKind ==> forall c :: c in after.cities <==> c in db.cities && c.id != id)
      && (kind == DistrictKind ==> forall d :: d in after.districts <==> d in db.districts && d.id != id)
      && (kind == SchoolKind ==> forall s :: s in after.schools <==> s in db.schools && s.id != id)
      && (kind == FacultyKind ==> forall f :: f in after.faculties <==> f in db.faculties && f.id != id)
  {
  }

  datatype Deletion = Deletion(kind: Kind, id: string)

  function Run(db: Db, ds: seq<Deletion>): Db {
    if ds == [] then db else DeleteRow(Run(db, ds[..|ds| - 1]), ds[|ds| - 1].kind, ds[|ds| - 1].id)
  }

  ghost predicate AllAllowed(db: Db, ds: seq<Deletion>) {
    ds == [] ||
    (AllAllowed(db, ds[..|ds| - 1]) && Allowed(Run(db, ds[..|ds| - 1]), ds[|ds| - 1].kind, ds[|ds| - 1].id))
  }

  lemma {:induction false} RunKeepsResolving(db: Db, ds: seq<Deletion>)
    requires Resolves(db) && AllAllowed(db, ds)
    ensures Resolves(Run(db, ds))
  {
    if ds != [] {
      RunKeepsResolving(db, ds[..|ds| - 1]);
      DeleteKeepsResolving(Run(db, ds[..|ds| - 1]), ds[|ds| - 1].kind, ds[|ds| - 1].id);
    }
  }

  // ---------- What is not tracked ----------

  ghost predicate FacultyCitiesResolve(db: Db) {
    forall i :: 0 <= i < |db.faculties| && db.faculties[i].cityId != "" ==> HasCity(db, db.faculties[i].cityId)
  }

  /** The rules never look at a faculty's city: deleting a city keeps those links only if no faculty uses it. */
  lemma CityDeleteMayOrphanFaculties(db: Db, id: string)
    requires FacultyCitiesResolve(db) && Allowed(db, CityKind, id)
    ensures FacultyCitiesResolve(DeleteRow(db, CityKind, id))
      <==> forall i :: 0 <= i < |db.faculties| ==> db.faculties[i].cityId != id
  {
    var after := DeleteRow(db, CityKind, id);
    assert !HasCity(after, id) by {
      assert forall c :: c in after.cities ==> c.id != id;
    }
    forall other | HasCity(db, other) && other != id ensures HasCity(after, other) {
      var i :| 0 <= i < |db.cities| && db.cities[i].id == other;
      assert db.cities[i] in after.cities;
    }
  }
}
