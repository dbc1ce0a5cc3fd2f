/**
 * What the static constructor of `Category` leaves behind: replaying the
 * table succeeds, every listed bone belongs to the row that lists it, and
 * the fallback and "feet" own nothing.
 */
module BuiltRegistry {
  import opened CategoryModel
  import opened CategoryTable

  /** Row 0 of the table is "other", and its bones are none. */
  lemma TableRow0Bones()
    ensures 0 < |Table| && Table[0].name == "other" && Table[0].bones == []
  {
  }

  /** No bone is listed twice in rows 0 to 0: row 0, "other", lists no bones. */
  lemma TablePrefix1ListedOnce()
    ensures ListedOnce(Table[..1])
    ensures ListedWithin(Table[..1], {})
  {
    TableRow0Bones();
    assert Table[..0] == [];
    ListedOnceSkip(Table, 0, {});
  }

  /** Row 1 of the table is "body", and its bones are `BodyBones`. */
  lemma TableRow1Bones()
    ensures 1 < |Table| && Table[1].name == "body" && Table[1].bones == BodyBones
  {
  }

  /** No bone is listed twice in rows 0 to 1: row 1, "body", lists only bones no earlier row lists. */
  lemma TablePrefix2ListedOnce()
    ensures ListedOnce(Table[..2])
    ensures ListedWithin(Table[..2], BodyNames)
  {
    TablePrefix1ListedOnce();
    TableRow1Bones();
    BodyCovered();
    ListedOnceStart(Table, 1, BodyBones, BodyNames);
  }

  /** Row 2 of the table is "head", and its bones are `HeadBones`. */
  lemma TableRow2Bones()
    ensures 2 < |Table| && Table[2].name == "head" && Table[2].bones == HeadBones
  {
  }

  /** No bone is listed twice in rows 0 to 2: row 2, "head", lists only bones no earlier row lists. */
  lemma TablePrefix3ListedOnce()
    ensures ListedOnce(Table[..3])
    ensures ListedWithin(Table[..3], BodyNames + HeadNames)
  {
    TablePrefix2ListedOnce();
    TableRow2Bones();
    HeadCovered();
    HeadApart();
    ListedOnceExtend(Table, 2, HeadBones, BodyNames, HeadNames);
  }

  /** Row 3 of the table is "hair", and its bones are `HairBones`. */
  lemma TableRow3Bones()
    ensures 3 < |Table| && Table[3].name == "hair" && Table[3].bones == HairBones
  {
  }

  /** No bone is listed twice in rows 0 to 3: row 3, "hair", lists only bones no earlier row lists. */
  lemma TablePrefix4ListedOnce()
    ensures ListedOnce(Table[..4])
    ensures ListedWithin(Table[..4], BodyNames + HeadNames + HairNames)
  {
    TablePrefix3ListedOnce();
    TableRow3Bones();
    HairCovered();
    HairApart();
    ListedOnceExtend(Table, 3, HairBones, BodyNames + HeadNames, HairNames);
  }

  /** Row 4 of the table is "clothes", and its bones are `ClothesBones`. */
  lemma TableRow4Bones()
    ensures 4 < |Table| && Table[4].name == "clothes" && Table[4].bones == ClothesBones
  {
  }

  /** No bone is listed twice in rows 0 to 4: row 4, "clothes", lists only bones no earlier row lists. */
  lemma TablePrefix5ListedOnce()
    ensures ListedOnce(Table[..5])
    ensures ListedWithin(Table[..5], BodyNames + HeadNames + HairNames + ClothesNames)
  {
    TablePrefix4ListedOnce();
    TableRow4Bones();
    ClothesCovered();
    ClothesApart();
    ListedOnceExtend(Table, 4, ClothesBones, BodyNames + HeadNames + HairNames, ClothesNames);
  }

  /** Row 5 of the table is "right hand", and its bones are `RightHandBones`. */
  lemma TableRow5Bones()
    ensures 5 < |Table| && Table[5].name == "right hand" && Table[5].bones == RightHandBones
  {
  }

  /** No bone is listed twice in rows 0 to 5: row 5, "right hand", lists only bones no earlier row lists. */
  lemma TablePrefix6ListedOnce()
    ensures ListedOnce(Table[..6])
    ensures ListedWithin(Table[..6], BodyNames + HeadNames + HairNames + ClothesNames
      + RightHandNames)
  {
    TablePrefix5ListedOnce();
    TableRow5Bones();
    var seen := BodyNames + HeadNames + HairNames + ClothesNames;
    RightHandCovered();
    RightHandApart();
    ListedOnceExtend(Table, 5, RightHandBones, seen, RightHandNames);
  }

  /** Row 6 of the table is "left hand", and its bones are `LeftHandBones`. */
  lemma TableRow6Bones()
    ensures 6 < |Table| && Table[6].name == "left hand" && Table[6].bones == LeftHandBones
  {
  }

  /** No bone is listed twice in rows 0 to 6: row 6, "left hand", lists only bones no earlier row lists. */
  lemma TablePrefix7ListedOnce()
    ensures ListedOnce(Table[..7])
    ensures ListedWithin(Table[..7], BodyNames + HeadNames + HairNames + ClothesNames
      + RightHandNames + LeftHandNames)
  {
    TablePrefix6ListedOnce();
    TableRow6Bones();
    var seen := BodyNames + HeadNames + HairNames + ClothesNames + RightHandNames;
    LeftHandCovered();
    LeftHandApart();
    ListedOnceExtend(Table, 6, LeftHandBones, seen, LeftHandNames);
  }

  /** Row 7 of the table is "tail", and its bones are `TailBones`. */
  lemma TableRow7Bones()
    ensures 7 < |Table| && Table[7].name == "tail" && Table[7].bones == TailBones
  {
  }

  /** No bone is listed twice in rows 0 to 7: row 7, "tail", lists only bones no earlier row lists. */
  lemma TablePrefix8ListedOnce()
    ensures ListedOnce(Table[..8])
    ensures ListedWithin(Table[..8], BodyNames + HeadNames + HairNames + ClothesNames
      + RightHandNames + LeftHandNames + TailNames)
  {
    TablePrefix7ListedOnce();
    TableRow7Bones();
    var seen := BodyNames + HeadNames + HairNames + ClothesNames + RightHandNames + LeftHandNames;
    TailCovered();
    TailApart();
    ListedOnceExtend(Table, 7, TailBones, seen, TailNames);
  }

  /** Row 8 of the table is "ears", and its bones are `EarsBones`. */
  lemma TableRow8Bones()
    ensures 8 < |Table| && Table[8].name == "ears" && Table[8].bones == EarsBones
  {
  }

  /** No bone is listed twice in rows 0 to 8: row 8, "ears", lists only bones no earlier row lists. */
  lemma TablePrefix9ListedOnce()
    ensures ListedOnce(Table[..9])
    ensures ListedWithin(Table[..9], BodyNames + HeadNames + HairNames + ClothesNames
      + RightHandNames + LeftHandNames + TailNames + EarsNames)
  {
    TablePrefix8ListedOnce();
    TableRow8Bones();
    var seen := BodyNames + HeadNames + HairNames + ClothesNames + RightHandNames + LeftHandNames + TailNames;
    EarsCovered();
    EarsApart();
    ListedOnceExtend(Table, 8, EarsBones, seen, EarsNames);
  }

  /** Row 9 of the table is "feet", and its bones are none. */
  lemma TableRow9Bones()
    ensures 9 < |Table| && Table[9].name == "feet" && Table[9].bones == []
  {
  }

  /** No bone is listed twice in rows 0 to 9: row 9, "feet", lists no bones. */
  lemma TablePrefix10ListedOnce()
    ensures ListedOnce(Table[..10])
    ensures ListedWithin(Table[..10], PlainNames)
  {
    TablePrefix9ListedOnce();
    TableRow9Bones();
    var seen := BodyNames + HeadNames + HairNames + ClothesNames + RightHandNames + LeftHandNames + TailNames + EarsNames;
    ListedOnceSkip(Table, 9, seen);
  }

  /** Row 10 of the table is "ivcs left hand", and its bones are `IvcsLeftHandBones`. */
  lemma TableRow10Bones()
    ensures 10 < |Table| && Table[10].name == "ivcs left hand" && Table[10].bones == IvcsLeftHandBones
  {
  }

  /** No bone is listed twice in rows 0 to 10: row 10, "ivcs left hand", lists only bones no earlier row lists. */
  lemma TablePrefix11ListedOnce()
    ensures ListedOnce(Table[..11])
    ensures ListedWithin(Table[..11], PlainNames + IvcsLeftHandNames)
  {
    TablePrefix10ListedOnce();
    TableRow10Bones();
    IvcsLeftHandCovered();
    IvcsLeftHandApart();
    ListedOnceExtend(Table, 10, IvcsLeftHandBones, PlainNames, IvcsLeftHandNames);
  }

  /** Row 11 of the table is "ivcs right hand", and its bones are `IvcsRightHandBones`. */
  lemma TableRow11Bones()
    ensures 11 < |Table| && Table[11].name == "ivcs right hand" && Table[11].bones == IvcsRightHandBones
  {
  }

  /** No bone is listed twice in rows 0 to 11: row 11, "ivcs right hand", lists only bones no earlier row lists. */
  lemma TablePrefix12ListedOnce()
    ensures ListedOnce(Table[..12])
    ensures ListedWithin(Table[..12], PlainNames + IvcsLeftHandNames + IvcsRightHandNames)
  {
    TablePrefix11ListedOnce();
    TableRow11Bones();
    IvcsRightHandCovered();
    IvcsRightHandApart();
    ListedOnceExtend(Table, 11, IvcsRightHandBones, PlainNames + IvcsLeftHandNames, IvcsRightHandNames);
  }

  /** Row 12 of the table is "ivcs left foot", and its bones are `IvcsLeftFootBones`. */
  lemma TableRow12Bones()
    ensures 12 < |Table| && Table[12].name == "ivcs left foot" && Table[12].bones == IvcsLeftFootBones
  {
  }

  /** No bone is listed twice in rows 0 to 12: row 12, "ivcs left foot", lists only bones no earlier row lists. */
  lemma TablePrefix13ListedOnce()
    ensures ListedOnce(Table[..13])
    ensures ListedWithin(Table[..13], PlainNames + IvcsLeftHandNames + IvcsRightHandNames
      + IvcsLeftFootNames)
  {
    TablePrefix12ListedOnce();
    TableRow12Bones();
    var seen := PlainNames + IvcsLeftHandNames + IvcsRightHandNames;
    IvcsLeftFootCovered();
    IvcsLeftFootApart();
    ListedOnceExtend(Table, 12, IvcsLeftFootBones, seen, IvcsLeftFootNames);
  }

  /** Row 13 of the table is "ivcs right foot", and its bones are `IvcsRightFootBones`. */
  lemma TableRow13Bones()
    ensures 13 < |Table| && Table[13].name == "ivcs right foot" && Table[13].bones == IvcsRightFootBones
  {
  }

  /** No bone is listed twice in rows 0 to 13: row 13, "ivcs right foot", lists only bones no earlier row lists. */
  lemma TablePrefix14ListedOnce()
    ensures ListedOnce(Table[..14])
    ensures ListedWithin(Table[..14], PlainNames + IvcsLeftHandNames + IvcsRightHandNames
      + IvcsLeftFootNames + IvcsRightFootNames)
  {
    TablePrefix13ListedOnce();
    TableRow13Bones();
    var seen := PlainNames + IvcsLeftHandNames + IvcsRightHandNames + IvcsLeftFootNames;
    IvcsRightFootCovered();
    IvcsRightFootApart();
    ListedOnceExtend(Table, 13, IvcsRightFootBones, seen, IvcsRightFootNames);
  }

  /** Row 14 of the table is "ivcs body", and its bones are `IvcsBodyBones`. */
  lemma TableRow14Bones()
    ensures 14 < |Table| && Table[14].name == "ivcs body" && Table[14].bones == IvcsBodyBones
  {
  }

  /** No bone is listed twice in rows 0 to 14: row 14, "ivcs body", lists only bones no earlier row lists. */
  lemma TablePrefix15ListedOnce()
    ensures ListedOnce(Table[..15])
    ensures ListedWithin(Table[..15], PlainNames + IvcsLeftHandNames + IvcsRightHandNames
      + IvcsLeftFootNames + IvcsRightFootNames + IvcsBodyNames)
  {
    TablePrefix14ListedOnce();
    TableRow14Bones();
    var seen := PlainNames + IvcsLeftHandNames + IvcsRightHandNames + IvcsLeftFootNames + IvcsRightFootNames;
    IvcsBodyCovered();
    IvcsBodyApart();
    ListedOnceExtend(Table, 14, IvcsBodyBones, seen, IvcsBodyNames);
  }

  /** Row 15 of the table is "ivcs penis", and its bones are `IvcsPenisBones`. */
  lemma TableRow15Bones()
    ensures 15 < |Table| && Table[15].name == "ivcs penis" && Table[15].bones == IvcsPenisBones
  {
  }

  /** No bone is listed twice in rows 0 to 15: row 15, "ivcs penis", lists only bones no earlier row lists. */
  lemma TablePrefix16ListedOnce()
    ensures ListedOnce(Table[..16])
    ensures ListedWithin(Table[..16], PlainNames + IvcsLeftHandNames + IvcsRightHandNames
      + IvcsLeftFootNames + IvcsRightFootNames + IvcsBodyNames + IvcsPenisNames)
  {
    TablePrefix15ListedOnce();
    TableRow15Bones();
    var seen := PlainNames + IvcsLeftHandNames + IvcsRightHandNames + IvcsLeftFootNames + IvcsRightFootNames + IvcsBodyNames;
    IvcsPenisCovered();
    IvcsPenisApart();
    ListedOnceExtend(Table, 15, IvcsPenisBones, seen, IvcsPenisNames);
  }

  /** Row 16 of the table is "ivcs vagina", and its bones are `IvcsVaginaBones`. */
  lemma TableRow16Bones()
    ensures 16 < |Table| && Table[16].name == "ivcs vagina" && Table[16].bones == IvcsVaginaBones
  {
  }

  /** No bone is listed twice in rows 0 to 16: row 16, "ivcs vagina", lists only bones no earlier row lists. */
  lemma TablePrefix17ListedOnce()
    ensures ListedOnce(Table[..17])
    ensures ListedWithin(Table[..17], PlainNames + IvcsLeftHandNames + IvcsRightHandNames
      + IvcsLeftFootNames + IvcsRightFootNames + IvcsBodyNames + IvcsPenisNames + IvcsVaginaNames)
  {
    TablePrefix16ListedOnce();
    TableRow16Bones();
    var seen := PlainNames + IvcsLeftHandNames + IvcsRightHandNames + IvcsLeftFootNames + IvcsRightFootNames + IvcsBodyNames + IvcsPenisNames;
    IvcsVaginaCovered();
    IvcsVaginaApart();
    ListedOnceExtend(Table, 16, IvcsVaginaBones, seen, IvcsVaginaNames);
  }

  /** Row 17 of the table is "ivcs buttocks", and its bones are `IvcsButtocksBones`. */
  lemma TableRow17Bones()
    ensures 17 < |Table| && Table[17].name == "ivcs buttocks" && Table[17].bones == IvcsButtocksBones
  {
  }

  /** No bone is listed twice in rows 0 to 17: row 17, "ivcs buttocks", lists only bones no earlier row lists. */
  lemma TablePrefix18ListedOnce()
    ensures ListedOnce(Table[..18])
    ensures ListedWithin(Table[..18], PlainNames + IvcsLeftHandNames + IvcsRightHandNames
      + IvcsLeftFootNames + IvcsRightFootNames + IvcsBodyNames + IvcsPenisNames + IvcsVaginaNames
      + IvcsButtocksNames)
  {
    TablePrefix17ListedOnce();
    TableRow17Bones();
    var seen := PlainNames + IvcsLeftHandNames + IvcsRightHandNames + IvcsLeftFootNames + IvcsRightFootNames + IvcsBodyNames + IvcsPenisNames + IvcsVaginaNames;
    IvcsButtocksCovered();
    IvcsButtocksApart();
    ListedOnceExtend(Table, 17, IvcsButtocksBones, seen, IvcsButtocksNames);
  }

  /** No bone name appears in the lists of two rows of the table. */
  lemma TableListsEachBoneOnce()
    ensures ListedOnce(Table)
  {
    TablePrefix18ListedOnce();
    assert Table[..18] == Table;
  }

  /** The table registers eighteen categories under eighteen different names. */
  lemma TableNamesDistinct()
    ensures |Table| == 18 && NamesDistinct(Table)
  {
  }

  // ---------------------------------------------------------------------------
  // The registry the static constructor leaves behind

  /** Replaying the table registers every row: no `CreateCategory` call of it throws. */
  function Built(): (v: RegistryView)
    ensures BuildFrom(Empty, Table) == Success(v)
  {
    TableNamesDistinct();
    BuildFromSucceeds(Empty, Table);
    BuildFrom(Empty, Table).value
  }

  /** Every row is registered, hidden, with its colour and bones, and no other name is. */
  lemma BuiltCategories()
    ensures HoldsRows(Built(), Table) && OnlyRows(Built(), Table)
  {
    TableNamesDistinct();
    ReplayCategories(Table);
  }

  /** Every listed bone belongs to the row that lists it, and no other bone has an owner. */
  lemma BuiltOwners()
    ensures OwnedByLister(Built(), Table) && OwnersList(Built(), Table)
  {
    TableNamesDistinct();
    TableListsEachBoneOnce();
    ReplayOwnersListed(Table);
    ReplayOwnersOnlyListed(Table);
  }

  /** Every bone the table hands out goes to a registered category. */
  lemma BuiltWellFormed()
    ensures WellFormed(Built())
  {
    assert BuildFrom(Empty, Table) == Success(Built());
    BuildFromKeepsWellFormed(Empty, Table);
  }

  /** Lookups can start: every owner is registered and so is the fallback. */
  lemma BuiltReady()
    ensures Ready(Built())
  {
    BuiltWellFormed();
    BuiltCategories();
    TableRow0Bones();
    RowRegistered(Built(), Table, 0);
  }

  /** The fallback exists and owns no bone. */
  lemma BuiltFallbackOwnsNothing()
    ensures Fallback in Built().categories && Built().categories[Fallback].bones == []
    ensures forall b | b in Built().owners :: Built().owners[b] != Fallback
  {
    BuiltCategories();
    BuiltOwners();
    TableNamesDistinct();
    TableRow0Bones();
    RowRegistered(Built(), Table, 0);
    RowWithoutBonesOwnsNothing(Built(), Table, 0);
  }

  /** "feet" is registered with no bones, so it owns none. */
  lemma BuiltFeetOwnsNothing()
    ensures "feet" in Built().categories && Built().categories["feet"].bones == []
    ensures forall b | b in Built().owners :: Built().owners[b] != "feet"
  {
    BuiltCategories();
    BuiltOwners();
    TableNamesDistinct();
    TableRow9Bones();
    RowRegistered(Built(), Table, 9);
    RowWithoutBonesOwnsNothing(Built(), Table, 9);
  }

  /** The "body" list leaves out the head root bone: its entry there is commented out. */
  lemma BodyOmitsKao()
    ensures "j_kao" !in BodyBones
  {
  }

  /** The head root bone belongs to "head", the row that lists it. */
  lemma BuiltHeadOwnsKao()
    ensures "j_kao" !in BodyBones
    ensures "j_kao" in Built().owners && Built().owners["j_kao"] == "head"
  {
    BodyOmitsKao();
    BuiltOwners();
    TableRow2Bones();
    assert HeadBones[0] == "j_kao";
    RowOwns(Built(), Table, 2, "j_kao");
  }

  /** Looking up the waist bone in the built registry gives "body", and marks it. */
  lemma BuiltWaistIsBody()
    ensures Ready(Built())
    ensures Resolve(Built(), Some("j_kosi")).0 == "body"
    ensures Resolve(Built(), Some("j_kosi")).1.categories["body"].shown
  {
    BuiltReady();
    BuiltOwners();
    TableRow1Bones();
    assert BodyBones[3] == "j_kosi";
    RowOwns(Built(), Table, 1, "j_kosi");
    ResolveNamed(Built(), "j_kosi");
  }
}
