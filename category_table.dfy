/**
 * The categories that Ktisis registers when it starts: the rows of the
 * static constructor of `Category`, in order, with each row's bones as a set.
 */
module CategoryTable {
  import opened CategoryModel

  /** The translucent white that most rows use (the constructor's local `defaultColor`). */
  const DefaultColor: Color := Color(1.0, 1.0, 1.0, 0.5647059)

  /** The bones listed for "body", in order. */
  const BodyBones: seq<string> := [
    "n_root", "n_hara", "n_throw", "j_kosi",
    "j_sebo_a", "j_asi_a_l", "j_asi_a_r", "j_sebo_b",
    "j_asi_b_l", "j_asi_b_r", "j_mune_l", "j_mune_r",
    "j_sebo_c", "j_asi_c_l", "j_asi_c_r", "j_kubi",
    "j_sako_l", "j_sako_r", "j_asi_d_l", "j_asi_d_r",
    "j_ude_a_l", "j_ude_a_r", "j_asi_e_l", "j_asi_e_r",
    "j_ude_b_l", "j_ude_b_r", "n_hkata_l", "n_hkata_r",
    "j_te_l", "j_te_r", "n_hhiji_l", "n_hhiji_r"
  ]

  /** The bones listed for "head", in order. */
  const HeadBones: seq<string> := [
    "j_kao", "j_ago", "j_f_dmab_l", "j_f_dmab_r",
    "j_f_eye_l", "j_f_eye_r", "j_f_hana", "j_f_hoho_l",
    "j_f_hoho_r", "j_f_lip_l", "j_f_lip_r", "j_f_mayu_l",
    "j_f_mayu_r", "j_f_memoto", "j_f_miken_l", "j_f_miken_r",
    "j_f_ulip_a", "j_f_umab_l", "j_f_umab_r", "j_f_dlip_a",
    "j_f_ulip_b", "j_f_dlip_b", "j_f_hige_l", "j_f_hige_r",
    "j_f_uago", "j_f_ulip", "n_f_lip_l", "n_f_lip_r",
    "n_f_ulip_l", "n_f_ulip_r", "j_f_dlip"
  ]

  /** The bones listed for "hair", in order. */
  const HairBones: seq<string> := [
    "j_kami_a", "j_kami_f_l", "j_kami_f_r", "j_kami_b",
    "j_ex_met_va"
  ]

  /** The bones listed for "clothes", in order. */
  const ClothesBones: seq<string> := [
    "j_sk_b_b_l", "j_sk_b_b_r", "j_sk_f_b_l", "j_sk_f_b_r",
    "j_sk_s_b_l", "j_sk_s_b_r", "j_buki_sebo_l", "j_buki_sebo_r",
    "j_buki2_kosi_l", "j_buki2_kosi_r", "j_buki_kosi_l", "j_buki_kosi_r",
    "j_sk_b_a_l", "j_sk_b_a_r", "j_sk_f_a_l", "j_sk_f_a_r",
    "j_sk_s_a_l", "j_sk_s_a_r", "j_sk_b_c_l", "j_sk_b_c_r",
    "j_sk_f_c_l", "j_sk_f_c_r", "j_sk_s_c_l", "j_sk_s_c_r",
    "n_hizasoubi_l", "n_hizasoubi_r", "n_kataarmor_l", "n_kataarmor_r",
    "n_buki_tate_l", "n_buki_tate_r", "n_hijisoubi_l", "n_hijisoubi_r",
    "n_ear_a_l", "n_ear_a_r", "n_ear_b_l", "n_ear_b_r"
  ]

  /** The bones listed for "right hand", in order. */
  const RightHandBones: seq<string> := [
    "n_hte_r", "j_hito_a_r", "j_ko_a_r", "j_kusu_a_r",
    "j_naka_a_r", "j_oya_a_r", "n_buki_r", "j_hito_b_r",
    "j_ko_b_r", "j_kusu_b_r", "j_naka_b_r", "j_oya_b_r"
  ]

  /** The bones listed for "left hand", in order. */
  const LeftHandBones: seq<string> := [
    "n_hte_l", "j_hito_a_l", "j_ko_a_l", "j_kusu_a_l",
    "j_naka_a_l", "j_oya_a_l", "n_buki_l", "j_hito_b_l",
    "j_ko_b_l", "j_kusu_b_l", "j_naka_b_l", "j_oya_b_l"
  ]

  /** The bones listed for "tail", in order. */
  const TailBones: seq<string> := [
    "n_sippo_a", "n_sippo_b", "n_sippo_c", "n_sippo_d",
    "n_sippo_e"
  ]

  /** The bones listed for "ears", in order. */
  const EarsBones: seq<string> := [
    "j_mimi_l", "j_mimi_r", "j_zera_a_l", "j_zera_a_r",
    "j_zera_b_l", "j_zera_b_r", "j_zerb_a_l", "j_zerb_a_r",
    "j_zerb_b_l", "j_zerb_b_r", "j_zerc_a_l", "j_zerc_a_r",
    "j_zerc_b_l", "j_zerc_b_r", "j_zerd_a_l", "j_zerd_a_r",
    "j_zerd_b_l", "j_zerd_b_r"
  ]

  /** The bones listed for "ivcs left hand", in order. */
  const IvcsLeftHandBones: seq<string> := [
    "iv_ko_c_l", "iv_kusu_c_l", "iv_naka_c_l", "iv_hito_c_l"
  ]

  /** The bones listed for "ivcs right hand", in order. */
  const IvcsRightHandBones: seq<string> := [
    "iv_ko_c_r", "iv_kusu_c_r", "iv_naka_c_r", "iv_hito_c_r"
  ]

  /** The bones listed for "ivcs left foot", in order. */
  const IvcsLeftFootBones: seq<string> := [
    "iv_asi_oya_a_l", "iv_asi_oya_b_l", "iv_asi_hito_a_l", "iv_asi_hito_b_l",
    "iv_asi_naka_a_l", "iv_asi_naka_b_l", "iv_asi_kusu_a_l", "iv_asi_kusu_b_l",
    "iv_asi_ko_a_l", "iv_asi_ko_b_l"
  ]

  /** The bones listed for "ivcs right foot", in order. */
  const IvcsRightFootBones: seq<string> := [
    "iv_asi_oya_a_r", "iv_asi_oya_b_r", "iv_asi_hito_a_r", "iv_asi_hito_b_r",
    "iv_asi_naka_a_r", "iv_asi_naka_b_r", "iv_asi_kusu_a_r", "iv_asi_kusu_b_r",
    "iv_asi_ko_a_r", "iv_asi_ko_b_r"
  ]

  /** The bones listed for "ivcs body", in order. */
  const IvcsBodyBones: seq<string> := [
    "iv_nitoukin_l", "iv_nitoukin_r", "iv_c_mune_l", "iv_c_mune_r"
  ]

  /** The bones listed for "ivcs penis", in order. */
  const IvcsPenisBones: seq<string> := [
    "iv_kougan_l", "iv_kougan_r", "iv_ochinko_a", "iv_ochinko_b",
    "iv_ochinko_c", "iv_ochinko_d", "iv_ochinko_e", "iv_ochinko_f"
  ]

  /** The bones listed for "ivcs vagina", in order. */
  const IvcsVaginaBones: seq<string> := [
    "iv_kuritto", "iv_inshin_l", "iv_inshin_r"
  ]

  /** The bones listed for "ivcs buttocks", in order. */
  const IvcsButtocksBones: seq<string> := [
    "iv_koumon", "iv_koumon_l", "iv_koumon_r", "iv_shiri_l",
    "iv_shiri_r"
  ]

  /** The registrations of the static constructor, in the order it makes them. */
  const Table: seq<Row> := [
    Row("other", Color(1.0, 1.0, 1.0, 0.5647059), []),  // Ktisis/Structs/Bones/Category.cs:63
    Row("body", Color(1.0, 0.0, 0.0, 0.5647059), BodyBones),  // Ktisis/Structs/Bones/Category.cs:65
    Row("head", Color(0.0, 1.0, 0.0, 0.5647059), HeadBones),  // Ktisis/Structs/Bones/Category.cs:100
    Row("hair", Color(0.0, 0.0, 1.0, 0.5647059), HairBones),  // Ktisis/Structs/Bones/Category.cs:141
    Row("clothes", Color(1.0, 1.0, 0.0, 0.5647059), ClothesBones),  // Ktisis/Structs/Bones/Category.cs:148
    Row("right hand", Color(1.0, 0.0, 1.0, 0.5647059), RightHandBones),  // Ktisis/Structs/Bones/Category.cs:186
    Row("left hand", Color(0.0, 1.0, 1.0, 0.5647059), LeftHandBones),  // Ktisis/Structs/Bones/Category.cs:200
    Row("tail", DefaultColor, TailBones),  // Ktisis/Structs/Bones/Category.cs:214
    Row("ears", DefaultColor, EarsBones),  // Ktisis/Structs/Bones/Category.cs:222
    Row("feet", DefaultColor, []),  // Ktisis/Structs/Bones/Category.cs:246
    Row("ivcs left hand", DefaultColor, IvcsLeftHandBones),  // Ktisis/Structs/Bones/Category.cs:249
    Row("ivcs right hand", DefaultColor, IvcsRightHandBones),  // Ktisis/Structs/Bones/Category.cs:255
    Row("ivcs left foot", DefaultColor, IvcsLeftFootBones),  // Ktisis/Structs/Bones/Category.cs:261
    Row("ivcs right foot", DefaultColor, IvcsRightFootBones),  // Ktisis/Structs/Bones/Category.cs:273
    Row("ivcs body", DefaultColor, IvcsBodyBones),  // Ktisis/Structs/Bones/Category.cs:285
    Row("ivcs penis", DefaultColor, IvcsPenisBones),  // Ktisis/Structs/Bones/Category.cs:295
    Row("ivcs vagina", DefaultColor, IvcsVaginaBones),  // Ktisis/Structs/Bones/Category.cs:309
    Row("ivcs buttocks", DefaultColor, IvcsButtocksBones)  // Ktisis/Structs/Bones/Category.cs:314
  ]

  // ---------------------------------------------------------------------------
  // No bone is listed twice.
  //
  // Each row's bones again as a set display: comparing two set displays costs
  // the solver far less than comparing two sequences, and every lemma below
  // first shows that the row's sequence lies inside its set.

  const BodyNames: set<string> := {
    "n_root", "n_hara", "n_throw", "j_kosi",
    "j_sebo_a", "j_asi_a_l", "j_asi_a_r", "j_sebo_b",
    "j_asi_b_l", "j_asi_b_r", "j_mune_l", "j_mune_r",
    "j_sebo_c", "j_asi_c_l", "j_asi_c_r", "j_kubi",
    "j_sako_l", "j_sako_r", "j_asi_d_l", "j_asi_d_r",
    "j_ude_a_l", "j_ude_a_r", "j_asi_e_l", "j_asi_e_r",
    "j_ude_b_l", "j_ude_b_r", "n_hkata_l", "n_hkata_r",
    "j_te_l", "j_te_r", "n_hhiji_l", "n_hhiji_r"
  }

  const HeadNames: set<string> := {
    "j_kao", "j_ago", "j_f_dmab_l", "j_f_dmab_r",
    "j_f_eye_l", "j_f_eye_r", "j_f_hana", "j_f_hoho_l",
    "j_f_hoho_r", "j_f_lip_l", "j_f_lip_r", "j_f_mayu_l",
    "j_f_mayu_r", "j_f_memoto", "j_f_miken_l", "j_f_miken_r",
    "j_f_ulip_a", "j_f_umab_l", "j_f_umab_r", "j_f_dlip_a",
    "j_f_ulip_b", "j_f_dlip_b", "j_f_hige_l", "j_f_hige_r",
    "j_f_uago", "j_f_ulip", "n_f_lip_l", "n_f_lip_r",
    "n_f_ulip_l", "n_f_ulip_r", "j_f_dlip"
  }

  const HairNames: set<string> := {
    "j_kami_a", "j_kami_f_l", "j_kami_f_r", "j_kami_b",
    "j_ex_met_va"
  }

  const ClothesNames: set<string> := {
    "j_sk_b_b_l", "j_sk_b_b_r", "j_sk_f_b_l", "j_sk_f_b_r",
    "j_sk_s_b_l", "j_sk_s_b_r", "j_buki_sebo_l", "j_buki_sebo_r",
    "j_buki2_kosi_l", "j_buki2_kosi_r", "j_buki_kosi_l", "j_buki_kosi_r",
    "j_sk_b_a_l", "j_sk_b_a_r", "j_sk_f_a_l", "j_sk_f_a_r",
    "j_sk_s_a_l", "j_sk_s_a_r", "j_sk_b_c_l", "j_sk_b_c_r",
    "j_sk_f_c_l", "j_sk_f_c_r", "j_sk_s_c_l", "j_sk_s_c_r",
    "n_hizasoubi_l", "n_hizasoubi_r", "n_kataarmor_l", "n_kataarmor_r",
    "n_buki_tate_l", "n_buki_tate_r", "n_hijisoubi_l", "n_hijisoubi_r",
    "n_ear_a_l", "n_ear_a_r", "n_ear_b_l", "n_ear_b_r"
  }

  const RightHandNames: set<string> := {
    "n_hte_r", "j_hito_a_r", "j_ko_a_r", "j_kusu_a_r",
    "j_naka_a_r", "j_oya_a_r", "n_buki_r", "j_hito_b_r",
    "j_ko_b_r", "j_kusu_b_r", "j_naka_b_r", "j_oya_b_r"
  }

  const LeftHandNames: set<string> := {
    "n_hte_l", "j_hito_a_l", "j_ko_a_l", "j_kusu_a_l",
    "j_naka_a_l", "j_oya_a_l", "n_buki_l", "j_hito_b_l",
    "j_ko_b_l", "j_kusu_b_l", "j_naka_b_l", "j_oya_b_l"
  }

  const TailNames: set<string> := {
    "n_sippo_a", "n_sippo_b", "n_sippo_c", "n_sippo_d",
    "n_sippo_e"
  }

  const EarsNames: set<string> := {
    "j_mimi_l", "j_mimi_r", "j_zera_a_l", "j_zera_a_r",
    "j_zera_b_l", "j_zera_b_r", "j_zerb_a_l", "j_zerb_a_r",
    "j_zerb_b_l", "j_zerb_b_r", "j_zerc_a_l", "j_zerc_a_r",
    "j_zerc_b_l", "j_zerc_b_r", "j_zerd_a_l", "j_zerd_a_r",
    "j_zerd_b_l", "j_zerd_b_r"
  }

  const IvcsLeftHandNames: set<string> := {
    "iv_ko_c_l", "iv_kusu_c_l", "iv_naka_c_l", "iv_hito_c_l"
  }

  const IvcsRightHandNames: set<string> := {
    "iv_ko_c_r", "iv_kusu_c_r", "iv_naka_c_r", "iv_hito_c_r"
  }

  const IvcsLeftFootNames: set<string> := {
    "iv_asi_oya_a_l", "iv_asi_oya_b_l", "iv_asi_hito_a_l", "iv_asi_hito_b_l",
    "iv_asi_naka_a_l", "iv_asi_naka_b_l", "iv_asi_kusu_a_l", "iv_asi_kusu_b_l",
    "iv_asi_ko_a_l", "iv_asi_ko_b_l"
  }

  const IvcsRightFootNames: set<string> := {
    "iv_asi_oya_a_r", "iv_asi_oya_b_r", "iv_asi_hito_a_r", "iv_asi_hito_b_r",
    "iv_asi_naka_a_r", "iv_asi_naka_b_r", "iv_asi_kusu_a_r", "iv_asi_kusu_b_r",
    "iv_asi_ko_a_r", "iv_asi_ko_b_r"
  }

  const IvcsBodyNames: set<string> := {
    "iv_nitoukin_l", "iv_nitoukin_r", "iv_c_mune_l", "iv_c_mune_r"
  }

  const IvcsPenisNames: set<string> := {
    "iv_kougan_l", "iv_kougan_r", "iv_ochinko_a", "iv_ochinko_b",
    "iv_ochinko_c", "iv_ochinko_d", "iv_ochinko_e", "iv_ochinko_f"
  }

  const IvcsVaginaNames: set<string> := {
    "iv_kuritto", "iv_inshin_l", "iv_inshin_r"
  }

  const IvcsButtocksNames: set<string> := {
    "iv_koumon", "iv_koumon_l", "iv_koumon_r", "iv_shiri_l",
    "iv_shiri_r"
  }

  /** The names of the rows before the IVCS ones. */
  const PlainNames: set<string> :=
    BodyNames + HeadNames + HairNames + ClothesNames + RightHandNames + LeftHandNames + TailNames + EarsNames

  /** Every name in `names` starts with 'i', as the IVCS bone names do. */
  predicate AllStartWithI(names: set<string>) {
    forall b | b in names :: |b| > 0 && b[0] == 'i'
  }

  /** No name in `names` starts with 'i'. */
  predicate NoneStartsWithI(names: set<string>) {
    forall b | b in names :: |b| > 0 && b[0] != 'i'
  }

  /** The IVCS names and the others never meet: their first letters differ. */
  lemma FirstLetterApart(ivcs: set<string>, plain: set<string>)
    requires AllStartWithI(ivcs) && NoneStartsWithI(plain)
    ensures ivcs !! plain
  {
    forall b | b in ivcs ensures b !in plain {
      assert b[0] == 'i';
    }
  }

  /** Two sets of names without a leading 'i' make a third. */
  lemma NoneStartsWithIUnion(a: set<string>, c: set<string>)
    requires NoneStartsWithI(a) && NoneStartsWithI(c)
    ensures NoneStartsWithI(a + c)
  {
  }

  /** A set apart from two others is apart from their union. */
  lemma ApartFromUnion(x: set<string>, a: set<string>, c: set<string>)
    requires x !! a && x !! c
    ensures x !! a + c
  {
  }

  /**
   * Two sets of non-empty names are apart when, for each last letter ('l',
   * 'r' or any other), the names of the first ending in it avoid the second.
   */
  lemma ApartByLastLetter(x: set<string>, y: set<string>)
    requires forall b | b in x :: |b| > 0
    requires forall b | b in x && |b| > 0 && b[|b| - 1] == 'l' :: b !in y
    requires forall b | b in x && |b| > 0 && b[|b| - 1] == 'r' :: b !in y
    requires forall b | b in x && |b| > 0 && b[|b| - 1] != 'l' && b[|b| - 1] != 'r' :: b !in y
    ensures x !! y
  {
  }

  /** The "body" list lies inside its set. */
  lemma BodyCovered()
    ensures Within(BodyBones, BodyNames)
  {
  }

  /** No name of "body" starts with 'i'. */
  lemma BodyInitials()
    ensures NoneStartsWithI(BodyNames)
  {
  }

  /** The "head" list lies inside its set. */
  lemma HeadCovered()
    ensures Within(HeadBones, HeadNames)
  {
  }

  /** No name of "head" starts with 'i'. */
  lemma HeadInitials()
    ensures NoneStartsWithI(HeadNames)
  {
  }

  /** The "hair" list lies inside its set. */
  lemma HairCovered()
    ensures Within(HairBones, HairNames)
  {
  }

  /** No name of "hair" starts with 'i'. */
  lemma HairInitials()
    ensures NoneStartsWithI(HairNames)
  {
  }

  /** The "clothes" list lies inside its set. */
  lemma ClothesCovered()
    ensures Within(ClothesBones, ClothesNames)
  {
  }

  /** No name of "clothes" starts with 'i'. */
  lemma ClothesInitials()
    ensures NoneStartsWithI(ClothesNames)
  {
  }

  /** The "right hand" list lies inside its set. */
  lemma RightHandCovered()
    ensures Within(RightHandBones, RightHandNames)
  {
  }

  /** No name of "right hand" starts with 'i'. */
  lemma RightHandInitials()
    ensures NoneStartsWithI(RightHandNames)
  {
  }

  /** The "left hand" list lies inside its set. */
  lemma LeftHandCovered()
    ensures Within(LeftHandBones, LeftHandNames)
  {
  }

  /** No name of "left hand" starts with 'i'. */
  lemma LeftHandInitials()
    ensures NoneStartsWithI(LeftHandNames)
  {
  }

  /** The "tail" list lies inside its set. */
  lemma TailCovered()
    ensures Within(TailBones, TailNames)
  {
  }

  /** No name of "tail" starts with 'i'. */
  lemma TailInitials()
    ensures NoneStartsWithI(TailNames)
  {
  }

  /** The "ears" list lies inside its set. */
  lemma EarsCovered()
    ensures Within(EarsBones, EarsNames)
  {
  }

  /** No name of "ears" starts with 'i'. */
  lemma EarsInitials()
    ensures NoneStartsWithI(EarsNames)
  {
  }

  /** The "ivcs left hand" list lies inside its set. */
  lemma IvcsLeftHandCovered()
    ensures Within(IvcsLeftHandBones, IvcsLeftHandNames)
  {
  }

  /** Every name of "ivcs left hand" starts with 'i'. */
  lemma IvcsLeftHandInitials()
    ensures AllStartWithI(IvcsLeftHandNames)
  {
  }

  /** The "ivcs right hand" list lies inside its set. */
  lemma IvcsRightHandCovered()
    ensures Within(IvcsRightHandBones, IvcsRightHandNames)
  {
  }

  /** Every name of "ivcs right hand" starts with 'i'. */
  lemma IvcsRightHandInitials()
    ensures AllStartWithI(IvcsRightHandNames)
  {
  }

  /** The "ivcs left foot" list lies inside its set. */
  lemma IvcsLeftFootCovered()
    ensures Within(IvcsLeftFootBones, IvcsLeftFootNames)
  {
  }

  /** Every name of "ivcs left foot" starts with 'i'. */
  lemma IvcsLeftFootInitials()
    ensures AllStartWithI(IvcsLeftFootNames)
  {
  }

  /** The "ivcs right foot" list lies inside its set. */
  lemma IvcsRightFootCovered()
    ensures Within(IvcsRightFootBones, IvcsRightFootNames)
  {
  }

  /** Every name of "ivcs right foot" starts with 'i'. */
  lemma IvcsRightFootInitials()
    ensures AllStartWithI(IvcsRightFootNames)
  {
  }

  /** The "ivcs body" list lies inside its set. */
  lemma IvcsBodyCovered()
    ensures Within(IvcsBodyBones, IvcsBodyNames)
  {
  }

  /** Every name of "ivcs body" starts with 'i'. */
  lemma IvcsBodyInitials()
    ensures AllStartWithI(IvcsBodyNames)
  {
  }

  /** The "ivcs penis" list lies inside its set. */
  lemma IvcsPenisCovered()
    ensures Within(IvcsPenisBones, IvcsPenisNames)
  {
  }

  /** Every name of "ivcs penis" starts with 'i'. */
  lemma IvcsPenisInitials()
    ensures AllStartWithI(IvcsPenisNames)
  {
  }

  /** The "ivcs vagina" list lies inside its set. */
  lemma IvcsVaginaCovered()
    ensures Within(IvcsVaginaBones, IvcsVaginaNames)
  {
  }

  /** Every name of "ivcs vagina" starts with 'i'. */
  lemma IvcsVaginaInitials()
    ensures AllStartWithI(IvcsVaginaNames)
  {
  }

  /** The "ivcs buttocks" list lies inside its set. */
  lemma IvcsButtocksCovered()
    ensures Within(IvcsButtocksBones, IvcsButtocksNames)
  {
  }

  /** Every name of "ivcs buttocks" starts with 'i'. */
  lemma IvcsButtocksInitials()
    ensures AllStartWithI(IvcsButtocksNames)
  {
  }

  /** No name of the rows before the IVCS ones starts with 'i'. */
  lemma PlainNoneStartsWithI()
    ensures NoneStartsWithI(PlainNames)
  {
    BodyInitials();
    HeadInitials();
    HairInitials();
    ClothesInitials();
    RightHandInitials();
    LeftHandInitials();
    TailInitials();
    EarsInitials();
    NoneStartsWithIUnion(BodyNames, HeadNames);
    NoneStartsWithIUnion(BodyNames + HeadNames, HairNames);
    NoneStartsWithIUnion(BodyNames + HeadNames + HairNames, ClothesNames);
    NoneStartsWithIUnion(BodyNames + HeadNames + HairNames + ClothesNames, RightHandNames);
    NoneStartsWithIUnion(BodyNames + HeadNames + HairNames + ClothesNames + RightHandNames, LeftHandNames);
    NoneStartsWithIUnion(BodyNames + HeadNames + HairNames + ClothesNames + RightHandNames + LeftHandNames, TailNames);
    NoneStartsWithIUnion(BodyNames + HeadNames + HairNames + ClothesNames + RightHandNames + LeftHandNames + TailNames, EarsNames);
  }

  /** No "head" name ending in 'l' is listed by "body". */
  lemma HeadLeftApartFromBody()
    ensures forall b | b in HeadNames && |b| > 0 && b[|b| - 1] == 'l' :: b !in BodyNames
  {
  }

  /** No "head" name ending in 'r' is listed by "body". */
  lemma HeadRightApartFromBody()
    ensures forall b | b in HeadNames && |b| > 0 && b[|b| - 1] == 'r' :: b !in BodyNames
  {
  }

  /** No "head" name ending in neither 'l' nor 'r' is listed by "body". */
  lemma HeadMiddleApartFromBody()
    ensures forall b | b in HeadNames && |b| > 0 && b[|b| - 1] != 'l' && b[|b| - 1] != 'r' :: b !in BodyNames
  {
  }

  /** No name of "head" is listed by "body". */
  lemma HeadApartFromBody()
    ensures HeadNames !! BodyNames
  {
    HeadInitials();
    HeadLeftApartFromBody();
    HeadRightApartFromBody();
    HeadMiddleApartFromBody();
    ApartByLastLetter(HeadNames, BodyNames);
  }

  /** No name of "head" is listed by an earlier row. */
  lemma HeadApart()
    ensures HeadNames !! BodyNames
  {
    HeadApartFromBody();
  }

  /** No name of "hair" is listed by "body". */
  lemma HairApartFromBody()
    ensures HairNames !! BodyNames
  {
  }

  /** No name of "hair" is listed by "head". */
  lemma HairApartFromHead()
    ensures HairNames !! HeadNames
  {
  }

  /** No name of "hair" is listed by an earlier row. */
  lemma HairApart()
    ensures HairNames !! BodyNames + HeadNames
  {
    HairApartFromBody();
    HairApartFromHead();
    ApartFromUnion(HairNames, BodyNames, HeadNames);
  }

  /** No "clothes" name ending in 'l' is listed by "body". */
  lemma ClothesLeftApartFromBody()
    ensures forall b | b in ClothesNames && |b| > 0 && b[|b| - 1] == 'l' :: b !in BodyNames
  {
  }

  /** No "clothes" name ending in 'r' is listed by "body". */
  lemma ClothesRightApartFromBody()
    ensures forall b | b in ClothesNames && |b| > 0 && b[|b| - 1] == 'r' :: b !in BodyNames
  {
  }

  /** No "clothes" name ending in neither 'l' nor 'r' is listed by "body". */
  lemma ClothesMiddleApartFromBody()
    ensures forall b | b in ClothesNames && |b| > 0 && b[|b| - 1] != 'l' && b[|b| - 1] != 'r' :: b !in BodyNames
  {
  }

  /** No name of "clothes" is listed by "body". */
  lemma ClothesApartFromBody()
    ensures ClothesNames !! BodyNames
  {
    ClothesInitials();
    ClothesLeftApartFromBody();
    ClothesRightApartFromBody();
    ClothesMiddleApartFromBody();
    ApartByLastLetter(ClothesNames, BodyNames);
  }

  /** No "clothes" name ending in 'l' is listed by "head". */
  lemma ClothesLeftApartFromHead()
    ensures forall b | b in ClothesNames && |b| > 0 && b[|b| - 1] == 'l' :: b !in HeadNames
  {
  }

  /** No "clothes" name ending in 'r' is listed by "head". */
  lemma ClothesRightApartFromHead()
    ensures forall b | b in ClothesNames && |b| > 0 && b[|b| - 1] == 'r' :: b !in HeadNames
  {
  }

  /** No "clothes" name ending in neither 'l' nor 'r' is listed by "head". */
  lemma ClothesMiddleApartFromHead()
    ensures forall b | b in ClothesNames && |b| > 0 && b[|b| - 1] != 'l' && b[|b| - 1] != 'r' :: b !in HeadNames
  {
  }

  /** No name of "clothes" is listed by "head". */
  lemma ClothesApartFromHead()
    ensures ClothesNames !! HeadNames
  {
    ClothesInitials();
    ClothesLeftApartFromHead();
    ClothesRightApartFromHead();
    ClothesMiddleApartFromHead();
    ApartByLastLetter(ClothesNames, HeadNames);
  }

  /** No name of "clothes" is listed by "hair". */
  lemma ClothesApartFromHair()
    ensures ClothesNames !! HairNames
  {
  }

  /** No name of "clothes" is listed by an earlier row. */
  lemma ClothesApart()
    ensures ClothesNames !! BodyNames + HeadNames + HairNames
  {
    ClothesApartFromBody();
    ClothesApartFromHead();
    ClothesApartFromHair();
    ApartFromUnion(ClothesNames, BodyNames, HeadNames);
    ApartFromUnion(ClothesNames, BodyNames + HeadNames, HairNames);
  }

  /** No name of "right hand" is listed by "body". */
  lemma RightHandApartFromBody()
    ensures RightHandNames !! BodyNames
  {
  }

  /** No name of "right hand" is listed by "head". */
  lemma RightHandApartFromHead()
    ensures RightHandNames !! HeadNames
  {
  }

  /** No name of "right hand" is listed by "hair". */
  lemma RightHandApartFromHair()
    ensures RightHandNames !! HairNames
  {
  }

  /** No "right hand" name ending in 'l' is listed by "clothes". */
  lemma RightHandLeftApartFromClothes()
    ensures forall b | b in RightHandNames && |b| > 0 && b[|b| - 1] == 'l' :: b !in ClothesNames
  {
  }

  /** No "right hand" name ending in 'r' is listed by "clothes". */
  lemma RightHandRightApartFromClothes()
    ensures forall b | b in RightHandNames && |b| > 0 && b[|b| - 1] == 'r' :: b !in ClothesNames
  {
  }

  /** No "right hand" name ending in neither 'l' nor 'r' is listed by "clothes". */
  lemma RightHandMiddleApartFromClothes()
    ensures forall b | b in RightHandNames && |b| > 0 && b[|b| - 1] != 'l' && b[|b| - 1] != 'r' :: b !in ClothesNames
  {
  }

  /** No name of "right hand" is listed by "clothes". */
  lemma RightHandApartFromClothes()
    ensures RightHandNames !! ClothesNames
  {
    RightHandInitials();
    RightHandLeftApartFromClothes();
    RightHandRightApartFromClothes();
    RightHandMiddleApartFromClothes();
    ApartByLastLetter(RightHandNames, ClothesNames);
  }

  /** No name of "right hand" is listed by an earlier row. */
  lemma RightHandApart()
    ensures RightHandNames !! BodyNames + HeadNames + HairNames + ClothesNames
  {
    RightHandApartFromBody();
    RightHandApartFromHead();
    RightHandApartFromHair();
    RightHandApartFromClothes();
    ApartFromUnion(RightHandNames, BodyNames, HeadNames);
    ApartFromUnion(RightHandNames, BodyNames + HeadNames, HairNames);
    ApartFromUnion(RightHandNames, BodyNames + HeadNames + HairNames, ClothesNames);
  }

  /** No name of "left hand" is listed by "body". */
  lemma LeftHandApartFromBody()
    ensures LeftHandNames !! BodyNames
  {
  }

  /** No name of "left hand" is listed by "head". */
  lemma LeftHandApartFromHead()
    ensures LeftHandNames !! HeadNames
  {
  }

  /** No name of "left hand" is listed by "hair". */
  lemma LeftHandApartFromHair()
    ensures LeftHandNames !! HairNames
  {
  }

  /** No "left hand" name ending in 'l' is listed by "clothes". */
  lemma LeftHandLeftApartFromClothes()
    ensures forall b | b in LeftHandNames && |b| > 0 && b[|b| - 1] == 'l' :: b !in ClothesNames
  {
  }

  /** No "left hand" name ending in 'r' is listed by "clothes". */
  lemma LeftHandRightApartFromClothes()
    ensures forall b | b in LeftHandNames && |b| > 0 && b[|b| - 1] == 'r' :: b !in ClothesNames
  {
  }

  /** No "left hand" name ending in neither 'l' nor 'r' is listed by "clothes". */
  lemma LeftHandMiddleApartFromClothes()
    ensures forall b | b in LeftHandNames && |b| > 0 && b[|b| - 1] != 'l' && b[|b| - 1] != 'r' :: b !in ClothesNames
  {
  }

  /** No name of "left hand" is listed by "clothes". */
  lemma LeftHandApartFromClothes()
    ensures LeftHandNames !! ClothesNames
  {
    LeftHandInitials();
    LeftHandLeftApartFromClothes();
    LeftHandRightApartFromClothes();
    LeftHandMiddleApartFromClothes();
    ApartByLastLetter(LeftHandNames, ClothesNames);
  }

  /** No name of "left hand" is listed by "right hand". */
  lemma LeftHandApartFromRightHand()
    ensures LeftHandNames !! RightHandNames
  {
  }

  /** No name of "left hand" is listed by an earlier row. */
  lemma LeftHandApart()
    ensures LeftHandNames !! BodyNames + HeadNames + HairNames + ClothesNames + RightHandNames
  {
    LeftHandApartFromBody();
    LeftHandApartFromHead();
    LeftHandApartFromHair();
    LeftHandApartFromClothes();
    LeftHandApartFromRightHand();
    ApartFromUnion(LeftHandNames, BodyNames, HeadNames);
    ApartFromUnion(LeftHandNames, BodyNames + HeadNames, HairNames);
    ApartFromUnion(LeftHandNames, BodyNames + HeadNames + HairNames, ClothesNames);
    ApartFromUnion(LeftHandNames, BodyNames + HeadNames + HairNames + ClothesNames, RightHandNames);
  }

  /** No name of "tail" is listed by "body". */
  lemma TailApartFromBody()
    ensures TailNames !! BodyNames
  {
  }

  /** No name of "tail" is listed by "head". */
  lemma TailApartFromHead()
    ensures TailNames !! HeadNames
  {
  }

  /** No name of "tail" is listed by "hair". */
  lemma TailApartFromHair()
    ensures TailNames !! HairNames
  {
  }

  /** No name of "tail" is listed by "clothes". */
  lemma TailApartFromClothes()
    ensures TailNames !! ClothesNames
  {
  }

  /** No name of "tail" is listed by "right hand". */
  lemma TailApartFromRightHand()
    ensures TailNames !! RightHandNames
  {
  }

  /** No name of "tail" is listed by "left hand". */
  lemma TailApartFromLeftHand()
    ensures TailNames !! LeftHandNames
  {
  }

  /** No name of "tail" is listed by an earlier row. */
  lemma TailApart()
    ensures TailNames !! BodyNames + HeadNames + HairNames + ClothesNames + RightHandNames
      + LeftHandNames
  {
    TailApartFromBody();
    TailApartFromHead();
    TailApartFromHair();
    TailApartFromClothes();
    TailApartFromRightHand();
    TailApartFromLeftHand();
    ApartFromUnion(TailNames, BodyNames, HeadNames);
    ApartFromUnion(TailNames, BodyNames + HeadNames, HairNames);
    ApartFromUnion(TailNames, BodyNames + HeadNames + HairNames, ClothesNames);
    ApartFromUnion(TailNames, BodyNames + HeadNames + HairNames + ClothesNames, RightHandNames);
    ApartFromUnion(TailNames, BodyNames + HeadNames + HairNames + ClothesNames + RightHandNames, LeftHandNames);
  }

  /** No "ears" name ending in 'l' is listed by "body". */
  lemma EarsLeftApartFromBody()
    ensures forall b | b in EarsNames && |b| > 0 && b[|b| - 1] == 'l' :: b !in BodyNames
  {
  }

  /** No "ears" name ending in 'r' is listed by "body". */
  lemma EarsRightApartFromBody()
    ensures forall b | b in EarsNames && |b| > 0 && b[|b| - 1] == 'r' :: b !in BodyNames
  {
  }

  /** No "ears" name ending in neither 'l' nor 'r' is listed by "body". */
  lemma EarsMiddleApartFromBody()
    ensures forall b | b in EarsNames && |b| > 0 && b[|b| - 1] != 'l' && b[|b| - 1] != 'r' :: b !in BodyNames
  {
  }

  /** No name of "ears" is listed by "body". */
  lemma EarsApartFromBody()
    ensures EarsNames !! BodyNames
  {
    EarsInitials();
    EarsLeftApartFromBody();
    EarsRightApartFromBody();
    EarsMiddleApartFromBody();
    ApartByLastLetter(EarsNames, BodyNames);
  }

  /** No "ears" name ending in 'l' is listed by "head". */
  lemma EarsLeftApartFromHead()
    ensures forall b | b in EarsNames && |b| > 0 && b[|b| - 1] == 'l' :: b !in HeadNames
  {
  }

  /** No "ears" name ending in 'r' is listed by "head". */
  lemma EarsRightApartFromHead()
    ensures forall b | b in EarsNames && |b| > 0 && b[|b| - 1] == 'r' :: b !in HeadNames
  {
  }

  /** No "ears" name ending in neither 'l' nor 'r' is listed by "head". */
  lemma EarsMiddleApartFromHead()
    ensures forall b | b in EarsNames && |b| > 0 && b[|b| - 1] != 'l' && b[|b| - 1] != 'r' :: b !in HeadNames
  {
  }

  /** No name of "ears" is listed by "head". */
  lemma EarsApartFromHead()
    ensures EarsNames !! HeadNames
  {
    EarsInitials();
    EarsLeftApartFromHead();
    EarsRightApartFromHead();
    EarsMiddleApartFromHead();
    ApartByLastLetter(EarsNames, HeadNames);
  }

  /** No name of "ears" is listed by "hair". */
  lemma EarsApartFromHair()
    ensures EarsNames !! HairNames
  {
  }

  /** No "ears" name ending in 'l' is listed by "clothes". */
  lemma EarsLeftApartFromClothes()
    ensures forall b | b in EarsNames && |b| > 0 && b[|b| - 1] == 'l' :: b !in ClothesNames
  {
  }

  /** No "ears" name ending in 'r' is listed by "clothes". */
  lemma EarsRightApartFromClothes()
    ensures forall b | b in EarsNames && |b| > 0 && b[|b| - 1] == 'r' :: b !in ClothesNames
  {
  }

  /** No "ears" name ending in neither 'l' nor 'r' is listed by "clothes". */
  lemma EarsMiddleApartFromClothes()
    ensures forall b | b in EarsNames && |b| > 0 && b[|b| - 1] != 'l' && b[|b| - 1] != 'r' :: b !in ClothesNames
  {
  }

  /** No name of "ears" is listed by "clothes". */
  lemma EarsApartFromClothes()
    ensures EarsNames !! ClothesNames
  {
    EarsInitials();
    EarsLeftApartFromClothes();
    EarsRightApartFromClothes();
    EarsMiddleApartFromClothes();
    ApartByLastLetter(EarsNames, ClothesNames);
  }

  /** No name of "ears" is listed by "right hand". */
  lemma EarsApartFromRightHand()
    ensures EarsNames !! RightHandNames
  {
  }

  /** No name of "ears" is listed by "left hand". */
  lemma EarsApartFromLeftHand()
    ensures EarsNames !! LeftHandNames
  {
  }

  /** No name of "ears" is listed by "tail". */
  lemma EarsApartFromTail()
    ensures EarsNames !! TailNames
  {
  }

  /** No name of "ears" is listed by an earlier row. */
  lemma EarsApart()
    ensures EarsNames !! BodyNames + HeadNames + HairNames + ClothesNames + RightHandNames
      + LeftHandNames + TailNames
  {
    EarsApartFromBody();
    EarsApartFromHead();
    EarsApartFromHair();
    EarsApartFromClothes();
    EarsApartFromRightHand();
    EarsApartFromLeftHand();
    EarsApartFromTail();
    ApartFromUnion(EarsNames, BodyNames, HeadNames);
    ApartFromUnion(EarsNames, BodyNames + HeadNames, HairNames);
    ApartFromUnion(EarsNames, BodyNames + HeadNames + HairNames, ClothesNames);
    ApartFromUnion(EarsNames, BodyNames + HeadNames + HairNames + ClothesNames, RightHandNames);
    ApartFromUnion(EarsNames, BodyNames + HeadNames + HairNames + ClothesNames + RightHandNames, LeftHandNames);
    ApartFromUnion(EarsNames, BodyNames + HeadNames + HairNames + ClothesNames + RightHandNames + LeftHandNames, TailNames);
  }

  /** No name of "ivcs left hand" is listed by an earlier row. */
  lemma IvcsLeftHandApart()
    ensures IvcsLeftHandNames !! PlainNames
  {
    IvcsLeftHandInitials();
    PlainNoneStartsWithI();
    FirstLetterApart(IvcsLeftHandNames, PlainNames);
  }

  /** No name of "ivcs right hand" is listed by "ivcs left hand". */
  lemma IvcsRightHandApartFromIvcsLeftHand()
    ensures IvcsRightHandNames !! IvcsLeftHandNames
  {
  }

  /** No name of "ivcs right hand" is listed by an earlier row. */
  lemma IvcsRightHandApart()
    ensures IvcsRightHandNames !! PlainNames + IvcsLeftHandNames
  {
    IvcsRightHandInitials();
    PlainNoneStartsWithI();
    FirstLetterApart(IvcsRightHandNames, PlainNames);
    IvcsRightHandApartFromIvcsLeftHand();
    ApartFromUnion(IvcsRightHandNames, PlainNames, IvcsLeftHandNames);
  }

  /** No name of "ivcs left foot" is listed by "ivcs left hand". */
  lemma IvcsLeftFootApartFromIvcsLeftHand()
    ensures IvcsLeftFootNames !! IvcsLeftHandNames
  {
  }

  /** No name of "ivcs left foot" is listed by "ivcs right hand". */
  lemma IvcsLeftFootApartFromIvcsRightHand()
    ensures IvcsLeftFootNames !! IvcsRightHandNames
  {
  }

  /** No name of "ivcs left foot" is listed by an earlier row. */
  lemma IvcsLeftFootApart()
    ensures IvcsLeftFootNames !! PlainNames + IvcsLeftHandNames + IvcsRightHandNames
  {
    IvcsLeftFootInitials();
    PlainNoneStartsWithI();
    FirstLetterApart(IvcsLeftFootNames, PlainNames);
    IvcsLeftFootApartFromIvcsLeftHand();
    IvcsLeftFootApartFromIvcsRightHand();
    ApartFromUnion(IvcsLeftFootNames, PlainNames, IvcsLeftHandNames);
    ApartFromUnion(IvcsLeftFootNames, PlainNames + IvcsLeftHandNames, IvcsRightHandNames);
  }

  /** No name of "ivcs right foot" is listed by "ivcs left hand". */
  lemma IvcsRightFootApartFromIvcsLeftHand()
    ensures IvcsRightFootNames !! IvcsLeftHandNames
  {
  }

  /** No name of "ivcs right foot" is listed by "ivcs right hand". */
  lemma IvcsRightFootApartFromIvcsRightHand()
    ensures IvcsRightFootNames !! IvcsRightHandNames
  {
  }

  /** No name of "ivcs right foot" is listed by "ivcs left foot". */
  lemma IvcsRightFootApartFromIvcsLeftFoot()
    ensures IvcsRightFootNames !! IvcsLeftFootNames
  {
  }

  /** No name of "ivcs right foot" is listed by an earlier row. */
  lemma IvcsRightFootApart()
    ensures IvcsRightFootNames !! PlainNames + IvcsLeftHandNames + IvcsRightHandNames
      + IvcsLeftFootNames
  {
    IvcsRightFootInitials();
    PlainNoneStartsWithI();
    FirstLetterApart(IvcsRightFootNames, PlainNames);
    IvcsRightFootApartFromIvcsLeftHand();
    IvcsRightFootApartFromIvcsRightHand();
    IvcsRightFootApartFromIvcsLeftFoot();
    ApartFromUnion(IvcsRightFootNames, PlainNames, IvcsLeftHandNames);
    ApartFromUnion(IvcsRightFootNames, PlainNames + IvcsLeftHandNames, IvcsRightHandNames);
    ApartFromUnion(IvcsRightFootNames, PlainNames + IvcsLeftHandNames + IvcsRightHandNames, IvcsLeftFootNames);
  }

  /** No name of "ivcs body" is listed by "ivcs left hand". */
  lemma IvcsBodyApartFromIvcsLeftHand()
    ensures IvcsBodyNames !! IvcsLeftHandNames
  {
  }

  /** No name of "ivcs body" is listed by "ivcs right hand". */
  lemma IvcsBodyApartFromIvcsRightHand()
    ensures IvcsBodyNames !! IvcsRightHandNames
  {
  }

  /** No name of "ivcs body" is listed by "ivcs left foot". */
  lemma IvcsBodyApartFromIvcsLeftFoot()
    ensures IvcsBodyNames !! IvcsLeftFootNames
  {
  }

  /** No name of "ivcs body" is listed by "ivcs right foot". */
  lemma IvcsBodyApartFromIvcsRightFoot()
    ensures IvcsBodyNames !! IvcsRightFootNames
  {
  }

  /** No name of "ivcs body" is listed by an earlier row. */
  lemma IvcsBodyApart()
    ensures IvcsBodyNames !! PlainNames + IvcsLeftHandNames + IvcsRightHandNames + IvcsLeftFootNames
      + IvcsRightFootNames
  {
    IvcsBodyInitials();
    PlainNoneStartsWithI();
    FirstLetterApart(IvcsBodyNames, PlainNames);
    IvcsBodyApartFromIvcsLeftHand();
    IvcsBodyApartFromIvcsRightHand();
    IvcsBodyApartFromIvcsLeftFoot();
    IvcsBodyApartFromIvcsRightFoot();
    ApartFromUnion(IvcsBodyNames, PlainNames, IvcsLeftHandNames);
    ApartFromUnion(IvcsBodyNames, PlainNames + IvcsLeftHandNames, IvcsRightHandNames);
    ApartFromUnion(IvcsBodyNames, PlainNames + IvcsLeftHandNames + IvcsRightHandNames, IvcsLeftFootNames);
    ApartFromUnion(IvcsBodyNames, PlainNames + IvcsLeftHandNames + IvcsRightHandNames + IvcsLeftFootNames, IvcsRightFootNames);
  }

  /** No name of "ivcs penis" is listed by "ivcs left hand". */
  lemma IvcsPenisApartFromIvcsLeftHand()
    ensures IvcsPenisNames !! IvcsLeftHandNames
  {
  }

  /** No name of "ivcs penis" is listed by "ivcs right hand". */
  lemma IvcsPenisApartFromIvcsRightHand()
    ensures IvcsPenisNames !! IvcsRightHandNames
  {
  }

  /** No name of "ivcs penis" is listed by "ivcs left foot". */
  lemma IvcsPenisApartFromIvcsLeftFoot()
    ensures IvcsPenisNames !! IvcsLeftFootNames
  {
  }

  /** No name of "ivcs penis" is listed by "ivcs right foot". */
  lemma IvcsPenisApartFromIvcsRightFoot()
    ensures IvcsPenisNames !! IvcsRightFootNames
  {
  }

  /** No name of "ivcs penis" is listed by "ivcs body". */
  lemma IvcsPenisApartFromIvcsBody()
    ensures IvcsPenisNames !! IvcsBodyNames
  {
  }

  /** No name of "ivcs penis" is listed by an earlier row. */
  lemma IvcsPenisApart()
    ensures IvcsPenisNames !! PlainNames + IvcsLeftHandNames + IvcsRightHandNames
      + IvcsLeftFootNames + IvcsRightFootNames + IvcsBodyNames
  {
    IvcsPenisInitials();
    PlainNoneStartsWithI();
    FirstLetterApart(IvcsPenisNames, PlainNames);
    IvcsPenisApartFromIvcsLeftHand();
    IvcsPenisApartFromIvcsRightHand();
    IvcsPenisApartFromIvcsLeftFoot();
    IvcsPenisApartFromIvcsRightFoot();
    IvcsPenisApartFromIvcsBody();
    ApartFromUnion(IvcsPenisNames, PlainNames, IvcsLeftHandNames);
    ApartFromUnion(IvcsPenisNames, PlainNames + IvcsLeftHandNames, IvcsRightHandNames);
    ApartFromUnion(IvcsPenisNames, PlainNames + IvcsLeftHandNames + IvcsRightHandNames, IvcsLeftFootNames);
    ApartFromUnion(IvcsPenisNames, PlainNames + IvcsLeftHandNames + IvcsRightHandNames + IvcsLeftFootNames, IvcsRightFootNames);
    ApartFromUnion(IvcsPenisNames, PlainNames + IvcsLeftHandNames + IvcsRightHandNames + IvcsLeftFootNames + IvcsRightFootNames, IvcsBodyNames);
  }

  /** No name of "ivcs vagina" is listed by "ivcs left hand". */
  lemma IvcsVaginaApartFromIvcsLeftHand()
    ensures IvcsVaginaNames !! IvcsLeftHandNames
  {
  }

  /** No name of "ivcs vagina" is listed by "ivcs right hand". */
  lemma IvcsVaginaApartFromIvcsRightHand()
    ensures IvcsVaginaNames !! IvcsRightHandNames
  {
  }

  /** No name of "ivcs vagina" is listed by "ivcs left foot". */
  lemma IvcsVaginaApartFromIvcsLeftFoot()
    ensures IvcsVaginaNames !! IvcsLeftFootNames
  {
  }

  /** No name of "ivcs vagina" is listed by "ivcs right foot". */
  lemma IvcsVaginaApartFromIvcsRightFoot()
    ensures IvcsVaginaNames !! IvcsRightFootNames
  {
  }

  /** No name of "ivcs vagina" is listed by "ivcs body". */
  lemma IvcsVaginaApartFromIvcsBody()
    ensures IvcsVaginaNames !! IvcsBodyNames
  {
  }

  /** No name of "ivcs vagina" is listed by "ivcs penis". */
  lemma IvcsVaginaApartFromIvcsPenis()
    ensures IvcsVaginaNames !! IvcsPenisNames
  {
  }

  /** No name of "ivcs vagina" is listed by an earlier row. */
  lemma IvcsVaginaApart()
    ensures IvcsVaginaNames !! PlainNames + IvcsLeftHandNames + IvcsRightHandNames
      + IvcsLeftFootNames + IvcsRightFootNames + IvcsBodyNames + IvcsPenisNames
  {
    IvcsVaginaInitials();
    PlainNoneStartsWithI();
    FirstLetterApart(IvcsVaginaNames, PlainNames);
    IvcsVaginaApartFromIvcsLeftHand();
    IvcsVaginaApartFromIvcsRightHand();
    IvcsVaginaApartFromIvcsLeftFoot();
    IvcsVaginaApartFromIvcsRightFoot();
    IvcsVaginaApartFromIvcsBody();
    IvcsVaginaApartFromIvcsPenis();
    ApartFromUnion(IvcsVaginaNames, PlainNames, IvcsLeftHandNames);
    ApartFromUnion(IvcsVaginaNames, PlainNames + IvcsLeftHandNames, IvcsRightHandNames);
    ApartFromUnion(IvcsVaginaNames, PlainNames + IvcsLeftHandNames + IvcsRightHandNames, IvcsLeftFootNames);
    ApartFromUnion(IvcsVaginaNames, PlainNames + IvcsLeftHandNames + IvcsRightHandNames + IvcsLeftFootNames, IvcsRightFootNames);
    ApartFromUnion(IvcsVaginaNames, PlainNames + IvcsLeftHandNames + IvcsRightHandNames + IvcsLeftFootNames + IvcsRightFootNames, IvcsBodyNames);
    ApartFromUnion(IvcsVaginaNames, PlainNames + IvcsLeftHandNames + IvcsRightHandNames + IvcsLeftFootNames + IvcsRightFootNames + IvcsBodyNames, IvcsPenisNames);
  }

  /** No name of "ivcs buttocks" is listed by "ivcs left hand". */
  lemma IvcsButtocksApartFromIvcsLeftHand()
    ensures IvcsButtocksNames !! IvcsLeftHandNames
  {
  }

  /** No name of "ivcs buttocks" is listed by "ivcs right hand". */
  lemma IvcsButtocksApartFromIvcsRightHand()
    ensures IvcsButtocksNames !! IvcsRightHandNames
  {
  }

  /** No name of "ivcs buttocks" is listed by "ivcs left foot". */
  lemma IvcsButtocksApartFromIvcsLeftFoot()
    ensures IvcsButtocksNames !! IvcsLeftFootNames
  {
  }

  /** No name of "ivcs buttocks" is listed by "ivcs right foot". */
  lemma IvcsButtocksApartFromIvcsRightFoot()
    ensures IvcsButtocksNames !! IvcsRightFootNames
  {
  }

  /** No name of "ivcs buttocks" is listed by "ivcs body". */
  lemma IvcsButtocksApartFromIvcsBody()
    ensures IvcsButtocksNames !! IvcsBodyNames
  {
  }

  /** No name of "ivcs buttocks" is listed by "ivcs penis". */
  lemma IvcsButtocksApartFromIvcsPenis()
    ensures IvcsButtocksNames !! IvcsPenisNames
  {
  }

  /** No name of "ivcs buttocks" is listed by "ivcs vagina". */
  lemma IvcsButtocksApartFromIvcsVagina()
    ensures IvcsButtocksNames !! IvcsVaginaNames
  {
  }

  /** No name of "ivcs buttocks" is listed by an earlier row. */
  lemma IvcsButtocksApart()
    ensures IvcsButtocksNames !! PlainNames + IvcsLeftHandNames + IvcsRightHandNames
      + IvcsLeftFootNames + IvcsRightFootNames + IvcsBodyNames + IvcsPenisNames + IvcsVaginaNames
  {
    IvcsButtocksInitials();
    PlainNoneStartsWithI();
    FirstLetterApart(IvcsButtocksNames, PlainNames);
    IvcsButtocksApartFromIvcsLeftHand();
    IvcsButtocksApartFromIvcsRightHand();
    IvcsButtocksApartFromIvcsLeftFoot();
    IvcsButtocksApartFromIvcsRightFoot();
    IvcsButtocksApartFromIvcsBody();
    IvcsButtocksApartFromIvcsPenis();
    IvcsButtocksApartFromIvcsVagina();
    ApartFromUnion(IvcsButtocksNames, PlainNames, IvcsLeftHandNames);
    ApartFromUnion(IvcsButtocksNames, PlainNames + IvcsLeftHandNames, IvcsRightHandNames);
    ApartFromUnion(IvcsButtocksNames, PlainNames + IvcsLeftHandNames + IvcsRightHandNames, IvcsLeftFootNames);
    ApartFromUnion(IvcsButtocksNames, PlainNames + IvcsLeftHandNames + IvcsRightHandNames + IvcsLeftFootNames, IvcsRightFootNames);
    ApartFromUnion(IvcsButtocksNames, PlainNames + IvcsLeftHandNames + IvcsRightHandNames + IvcsLeftFootNames + IvcsRightFootNames, IvcsBodyNames);
    ApartFromUnion(IvcsButtocksNames, PlainNames + IvcsLeftHandNames + IvcsRightHandNames + IvcsLeftFootNames + IvcsRightFootNames + IvcsBodyNames, IvcsPenisNames);
    ApartFromUnion(IvcsButtocksNames, PlainNames + IvcsLeftHandNames + IvcsRightHandNames + IvcsLeftFootNames + IvcsRightFootNames + IvcsBodyNames + IvcsPenisNames, IvcsVaginaNames);
  }
}
