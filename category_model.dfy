/**
 * The bone category registry as values: what the registry holds, and what
 * registering a category and looking up a bone do to it. The classes in
 * CategoryRegistry are proved against these functions.
 */
module CategoryModel {

  /** An RGBA colour. It is stored and handed back, never computed with. */
  datatype Color = Color(r: real, g: real, b: real, a: real)

  /** A nullable reference: `None` is the source's `null`. */
  datatype Option<T> = None | Some(value: T)

  /** Registering a name twice is the only failure (`Dictionary.Add` throws). */
  datatype Error = DuplicateCategory(name: string)

  datatype Result<T> = Success(value: T) | Failure(error: Error)

  /** The name of the fallback category, which is registered with no bones. */
  const Fallback: string := "other"

  /** One call `CreateCategory(name, color, bones)` of the static table. */
  datatype Row = Row(name: string, color: Color, bones: seq<string>)

  /** What a category holds; `shown` is its `ShouldDisplay` flag. */
  datatype CategoryView = CategoryView(color: Color, bones: seq<string>, shown: bool)

  /**
   * The registry: categories by name, and the name of the category that owns
   * each claimed bone.
   */
  datatype RegistryView = RegistryView(categories: map<string, CategoryView>, owners: map<string, string>)

  const Empty: RegistryView := RegistryView(map[], map[])

  /** Every owner of a bone is a registered category. */
  predicate WellFormed(v: RegistryView) {
    forall b | b in v.owners :: v.owners[b] in v.categories
  }

  /** The state lookups need: well formed, with the fallback registered. */
  predicate Ready(v: RegistryView) {
    WellFormed(v) && Fallback in v.categories
  }

  // ---------------------------------------------------------------------------
  // Registration

  /**
   * The bone loop of CreateCategory: `TryAdd(bone, name)` for each bone in
   * order, which leaves a bone that already has an owner alone.
   */
  function ClaimBones(owners: map<string, string>, bones: seq<string>, name: string): (claimed: map<string, string>)
    ensures forall b | b in owners :: b in claimed && claimed[b] == owners[b]
    ensures forall b | b in claimed :: b in owners || (b in bones && claimed[b] == name)
    decreases |bones|
  {
    if bones == [] then owners
    else
      var claimed := if bones[0] in owners then owners else owners[bones[0] := name];
      ClaimBones(claimed, bones[1..], name)
  }

  /**
   * First owner wins: the loop keeps every existing owner and gives exactly
   * the listed bones that had none to the new category.
   */
  lemma {:induction false} ClaimBonesFirstOwnerWins(owners: map<string, string>, bones: seq<string>, name: string)
    ensures ClaimBones(owners, bones, name) == owners + map b | b in bones && b !in owners :: name
    decreases |bones|
  {
    if bones != [] {
      var claimed := if bones[0] in owners then owners else owners[bones[0] := name];
      ClaimBonesFirstOwnerWins(claimed, bones[1..], name);
      var lhs := ClaimBones(owners, bones, name);
      var rhs := owners + map b | b in bones && b !in owners :: name;
      assert lhs.Keys == rhs.Keys by {
        forall b ensures b in lhs <==> b in rhs {
          assert b in bones <==> b == bones[0] || b in bones[1..];
        }
      }
      forall b | b in lhs ensures lhs[b] == rhs[b] {
        assert b in bones <==> b == bones[0] || b in bones[1..];
      }
    }
  }

  /** CreateCategory: fails on a registered name, else adds a hidden category and claims its bones. */
  function Register(v: RegistryView, name: string, color: Color, bones: seq<string>): (r: Result<RegistryView>)
    ensures r.Failure? <==> name in v.categories
    ensures r.Failure? ==> r.error == DuplicateCategory(name)
  {
    if name in v.categories then Failure(DuplicateCategory(name))
    else Success(RegistryView(v.categories[name := CategoryView(color, bones, false)], ClaimBones(v.owners, bones, name)))
  }

  /**
   * A fresh name succeeds: the new category holds the arguments and is not
   * shown, every other category is as it was, existing owners stay, and the
   * listed bones without an owner now belong to `name`.
   */
  lemma RegisterFresh(v: RegistryView, name: string, color: Color, bones: seq<string>)
    requires name !in v.categories
    ensures Register(v, name, color, bones).Success?
    ensures var w := Register(v, name, color, bones).value;
      && w.categories == v.categories[name := CategoryView(color, bones, false)]
      && w.owners == v.owners + map b | b in bones && b !in v.owners :: name
  {
    ClaimBonesFirstOwnerWins(v.owners, bones, name);
  }

  /** Registration keeps every owner a registered category. */
  lemma RegisterKeepsWellFormed(v: RegistryView, name: string, color: Color, bones: seq<string>)
    requires WellFormed(v) && Register(v, name, color, bones).Success?
    ensures WellFormed(Register(v, name, color, bones).value)
  {
    ClaimBonesFirstOwnerWins(v.owners, bones, name);
  }

  // ---------------------------------------------------------------------------
  // Lookup

  /** MarkForDisplay on the category `name`: its flag becomes true. */
  function Mark(v: RegistryView, name: string): (w: RegistryView)
    requires name in v.categories
    ensures w.categories.Keys == v.categories.Keys && w.owners == v.owners
    ensures w.categories[name].shown
    ensures w.categories[name].color == v.categories[name].color && w.categories[name].bones == v.categories[name].bones
    ensures forall n | n in v.categories && n != name :: w.categories[n] == v.categories[n]
  {
    v.(categories := v.categories[name := v.categories[name].(shown := true)])
  }

  /**
   * GetForBone: the owner of the bone, or the fallback when the name is null,
   * empty or unclaimed; every lookup but the null/empty one marks its result.
   * The result is the category's name and the registry afterwards.
   */
  function Resolve(v: RegistryView, bone: Option<string>): (r: (string, RegistryView))
    requires Ready(v)
    ensures r.0 in v.categories
    ensures r.1.owners == v.owners && r.1.categories.Keys == v.categories.Keys
  {
    if bone.None? || bone.value == "" then (Fallback, v)
    else
      var name := if bone.value in v.owners then v.owners[bone.value] else Fallback;
      (name, Mark(v, name))
  }

  /** A null or empty name gives the fallback and changes no flag. */
  lemma ResolveNullOrEmpty(v: RegistryView, bone: Option<string>)
    requires Ready(v)
    requires bone.None? || bone.value == ""
    ensures Resolve(v, bone) == (Fallback, v)
  {
  }

  /**
   * A non-empty name gives its owner, or the fallback when it has none; that
   * category's flag is set, every other category and every owner unchanged.
   */
  lemma ResolveNamed(v: RegistryView, b: string)
    requires Ready(v) && b != ""
    ensures var (name, w) := Resolve(v, Some(b));
      && (b in v.owners ==> name == v.owners[b])
      && (b !in v.owners ==> name == Fallback)
      && name in w.categories && w.categories[name].shown
      && w.categories.Keys == v.categories.Keys
      && w.categories[name].color == v.categories[name].color
      && w.categories[name].bones == v.categories[name].bones
      && (forall n | n in v.categories && n != name :: w.categories[n] == v.categories[n])
      && w.owners == v.owners
  {
  }

  /** The result of a lookup is always a registered category. */
  lemma ResolveRegistered(v: RegistryView, bone: Option<string>)
    requires Ready(v)
    ensures Resolve(v, bone).0 in v.categories
    ensures Ready(Resolve(v, bone).1)
  {
  }

  /** Flags only go from false to true: a lookup never hides a category. */
  lemma ResolveMonotone(v: RegistryView, bone: Option<string>)
    requires Ready(v)
    ensures var w := Resolve(v, bone).1;
      forall n | n in v.categories && v.categories[n].shown :: n in w.categories && w.categories[n].shown
  {
  }

  /** Looking the same bone up again gives the same category and changes nothing more. */
  lemma ResolveIdempotent(v: RegistryView, bone: Option<string>)
    requires Ready(v)
    ensures Ready(Resolve(v, bone).1)
    ensures Resolve(Resolve(v, bone).1, bone) == Resolve(v, bone)
  {
    var (name, w) := Resolve(v, bone);
    if bone.Some? && bone.value != "" {
      assert Mark(w, name).categories == w.categories;
    }
  }

  /** Registration never hides a category either. */
  lemma RegisterMonotone(v: RegistryView, name: string, color: Color, bones: seq<string>)
    requires Register(v, name, color, bones).Success?
    ensures var w := Register(v, name, color, bones).value;
      forall n | n in v.categories :: n in w.categories && w.categories[n] == v.categories[n]
  {
  }

  // ---------------------------------------------------------------------------
  // Replaying a table of registrations

  /** The registrations of `rows` in order, stopping at the first failure. */
  function BuildFrom(v: RegistryView, rows: seq<Row>): (r: Result<RegistryView>)
    ensures r.Success? ==> v.categories.Keys <= r.value.categories.Keys && v.owners.Keys <= r.value.owners.Keys
    decreases |rows|
  {
    if rows == [] then Success(v)
    else
      match Register(v, rows[0].name, rows[0].color, rows[0].bones)
      case Failure(e) => Failure(e)
      case Success(w) => BuildFrom(w, rows[1..])
  }

  /** No two rows register the same name. */
  predicate NamesDistinct(rows: seq<Row>) {
    forall i, j | 0 <= i < j < |rows| :: rows[i].name != rows[j].name
  }

  /** No bone is listed by two rows. */
  predicate ListedOnce(rows: seq<Row>) {
    forall i, j, b | 0 <= j < i < |rows| && b in rows[i].bones :: b !in rows[j].bones
  }

  /** The category that a replay gives `b`: the first row listing it. */
  function FirstLister(rows: seq<Row>, b: string): Option<string>
    decreases |rows|
  {
    if rows == [] then None
    else if b in rows[0].bones then Some(rows[0].name)
    else FirstLister(rows[1..], b)
  }

  /** A replay succeeds when its names are distinct and none is registered yet. */
  lemma {:induction false} BuildFromSucceeds(v: RegistryView, rows: seq<Row>)
    requires NamesDistinct(rows)
    requires forall i | 0 <= i < |rows| :: rows[i].name !in v.categories
    ensures BuildFrom(v, rows).Success?
    decreases |rows|
  {
    if rows != [] {
      var w := Register(v, rows[0].name, rows[0].color, rows[0].bones).value;
      forall i | 0 <= i < |rows[1..]| ensures rows[1..][i].name !in w.categories {
        assert rows[1..][i] == rows[i + 1];
      }
      BuildFromSucceeds(w, rows[1..]);
    }
  }

  /** A replay that meets an already registered name fails. */
  lemma {:induction false} BuildFromDuplicateFails(v: RegistryView, rows: seq<Row>, i: nat)
    requires i < |rows| && rows[i].name in v.categories
    ensures BuildFrom(v, rows).Failure?
    decreases |rows|
  {
    if i > 0 {
      match Register(v, rows[0].name, rows[0].color, rows[0].bones)
      case Failure(_) =>
      case Success(w) =>
        assert rows[1..][i - 1] == rows[i];
        BuildFromDuplicateFails(w, rows[1..], i - 1);
    }
  }

  /**
   * The converse: a replay fails when two rows share a name or a row names a
   * category registered before it started.
   */
  lemma {:induction false} BuildFromFailsOnRepeat(v: RegistryView, rows: seq<Row>)
    requires !NamesDistinct(rows) || exists i | 0 <= i < |rows| :: rows[i].name in v.categories
    ensures BuildFrom(v, rows).Failure?
    decreases |rows|
  {
    if exists i | 0 <= i < |rows| :: rows[i].name in v.categories {
      var i :| 0 <= i < |rows| && rows[i].name in v.categories;
      BuildFromDuplicateFails(v, rows, i);
    } else {
      var i, j :| 0 <= i < j < |rows| && rows[i].name == rows[j].name;
      var w := Register(v, rows[0].name, rows[0].color, rows[0].bones).value;
      assert rows[1..][j - 1] == rows[j];
      if i == 0 {
        BuildFromDuplicateFails(w, rows[1..], j - 1);
      } else {
        assert rows[1..][i - 1] == rows[i];
        BuildFromFailsOnRepeat(w, rows[1..]);
      }
    }
  }

  /**
   * First owner wins across a replay: an existing owner stays, and an
   * unowned bone goes to the first row that lists it; no other bone is owned.
   */
  lemma {:induction false} BuildFromOwners(v: RegistryView, rows: seq<Row>, b: string)
    requires BuildFrom(v, rows).Success?
    ensures var w := BuildFrom(v, rows).value;
      && (b in w.owners <==> b in v.owners || FirstLister(rows, b).Some?)
      && (b in v.owners ==> w.owners[b] == v.owners[b])
      && (b !in v.owners && FirstLister(rows, b).Some? ==> w.owners[b] == FirstLister(rows, b).value)
    decreases |rows|
  {
    if rows != [] {
      var w := Register(v, rows[0].name, rows[0].color, rows[0].bones).value;
      RegisterFresh(v, rows[0].name, rows[0].color, rows[0].bones);
      BuildFromOwners(w, rows[1..], b);
      if b in rows[0].bones && b !in v.owners {
        assert w.owners[b] == rows[0].name;
      }
    }
  }

  /**
   * A replay adds one hidden category per row, holding that row's colour and
   * bones, and leaves the categories it started with alone.
   */
  lemma {:induction false} BuildFromCategories(v: RegistryView, rows: seq<Row>, n: string)
    requires BuildFrom(v, rows).Success?
    ensures var w := BuildFrom(v, rows).value;
      && (n in w.categories <==> n in v.categories || exists i | 0 <= i < |rows| :: rows[i].name == n)
      && (n in v.categories ==> w.categories[n] == v.categories[n])
      && (forall i | 0 <= i < |rows| && rows[i].name == n ::
            w.categories[n] == CategoryView(rows[i].color, rows[i].bones, false))
    decreases |rows|
  {
    if rows != [] {
      var w := Register(v, rows[0].name, rows[0].color, rows[0].bones).value;
      BuildFromCategories(w, rows[1..], n);
      if n == rows[0].name {
        forall i | 0 < i < |rows| ensures rows[i].name != n {
          assert rows[1..][i - 1] == rows[i];
          if rows[i].name == n {
            BuildFromDuplicateFails(w, rows[1..], i - 1);
          }
        }
      } else {
        forall i | 0 < i < |rows| && rows[i].name == n
          ensures BuildFrom(v, rows).value.categories[n] == CategoryView(rows[i].color, rows[i].bones, false)
        {
          assert rows[1..][i - 1] == rows[i];
        }
        if exists i | 0 <= i < |rows[1..]| :: rows[1..][i].name == n {
          var i :| 0 <= i < |rows[1..]| && rows[1..][i].name == n;
          assert rows[i + 1].name == n;
        }
      }
    }
  }

  /** A replay keeps the registry well formed. */
  lemma {:induction false} BuildFromKeepsWellFormed(v: RegistryView, rows: seq<Row>)
    requires WellFormed(v) && BuildFrom(v, rows).Success?
    ensures WellFormed(BuildFrom(v, rows).value)
    decreases |rows|
  {
    if rows != [] {
      RegisterKeepsWellFormed(v, rows[0].name, rows[0].color, rows[0].bones);
      BuildFromKeepsWellFormed(Register(v, rows[0].name, rows[0].color, rows[0].bones).value, rows[1..]);
    }
  }

  /** The first row listing a bone is the one at `i` when no earlier row lists it. */
  lemma {:induction false} FirstListerAt(rows: seq<Row>, i: nat, b: string)
    requires i < |rows| && b in rows[i].bones
    requires forall j | 0 <= j < i :: b !in rows[j].bones
    ensures FirstLister(rows, b) == Some(rows[i].name)
    decreases i
  {
    if i > 0 {
      forall j | 0 <= j < i - 1 ensures b !in rows[1..][j].bones {
        assert rows[1..][j] == rows[j + 1];
      }
      assert b !in rows[0].bones;
      FirstListerAt(rows[1..], i - 1, b);
    }
  }

  /** The first lister of a bone is a row that lists it. */
  lemma {:induction false} FirstListerLists(rows: seq<Row>, b: string)
    requires FirstLister(rows, b).Some?
    ensures exists i | 0 <= i < |rows| :: rows[i].name == FirstLister(rows, b).value && b in rows[i].bones
    decreases |rows|
  {
    if b !in rows[0].bones {
      FirstListerLists(rows[1..], b);
      var i :| 0 <= i < |rows[1..]| && rows[1..][i].name == FirstLister(rows[1..], b).value && b in rows[1..][i].bones;
      assert rows[i + 1] == rows[1..][i];
    }
  }

  /**
   * When no bone is listed twice, a replay gives every listed bone that had
   * no owner to the row that lists it.
   */
  lemma ListedBoneOwner(v: RegistryView, rows: seq<Row>, i: nat, b: string)
    requires BuildFrom(v, rows).Success? && ListedOnce(rows)
    requires i < |rows| && b in rows[i].bones && b !in v.owners
    ensures b in BuildFrom(v, rows).value.owners
    ensures BuildFrom(v, rows).value.owners[b] == rows[i].name
  {
    FirstListerAt(rows, i, b);
    BuildFromOwners(v, rows, b);
  }

  /** Every bone of `bones` lies in `names`. */
  predicate Within(bones: seq<string>, names: set<string>) {
    forall b | b in bones :: b in names
  }

  /** Every bone listed by `rows` lies in `seen`. */
  predicate ListedWithin(rows: seq<Row>, seen: set<string>) {
    forall j, b | 0 <= j < |rows| && b in rows[j].bones :: b in seen
  }

  /**
   * Taking one more row of `table`, whose bones are all new, keeps every
   * bone listed once, and the bones listed so far grow by that row's bones.
   */
  lemma ListedOnceExtend(table: seq<Row>, k: nat, bones: seq<string>, seen: set<string>, names: set<string>)
    requires k < |table| && table[k].bones == bones
    requires ListedOnce(table[..k]) && ListedWithin(table[..k], seen)
    requires Within(bones, names) && names !! seen
    ensures ListedOnce(table[..k + 1]) && ListedWithin(table[..k + 1], seen + names)
  {
    var grown := table[..k + 1];
    forall i, j, b | 0 <= j < i < |grown| && b in grown[i].bones ensures b !in grown[j].bones {
      assert grown[j] == table[..k][j];
      if i < k {
        assert grown[i] == table[..k][i];
      }
    }
    forall j, b | 0 <= j < |grown| && b in grown[j].bones ensures b in seen + names {
      if j < k {
        assert grown[j] == table[..k][j];
      }
    }
  }

  /** The first row of `table` with bones starts the bones listed so far. */
  lemma ListedOnceStart(table: seq<Row>, k: nat, bones: seq<string>, names: set<string>)
    requires k < |table| && table[k].bones == bones
    requires ListedOnce(table[..k]) && ListedWithin(table[..k], {})
    requires Within(bones, names)
    ensures ListedOnce(table[..k + 1]) && ListedWithin(table[..k + 1], names)
  {
    ListedOnceExtend(table, k, bones, {}, names);
    assert {} + names == names;
  }

  /** Taking one more row of `table`, one without bones, changes nothing listed. */
  lemma ListedOnceSkip(table: seq<Row>, k: nat, seen: set<string>)
    requires k < |table| && table[k].bones == []
    requires ListedOnce(table[..k]) && ListedWithin(table[..k], seen)
    ensures ListedOnce(table[..k + 1]) && ListedWithin(table[..k + 1], seen)
  {
    ListedOnceExtend(table, k, [], seen, {});
    assert seen + {} == seen;
  }

  /** Each row of `rows` is registered in `w`, hidden, with its colour and bones. */
  predicate HoldsRows(w: RegistryView, rows: seq<Row>) {
    forall i | 0 <= i < |rows| ::
      rows[i].name in w.categories
      && w.categories[rows[i].name] == CategoryView(rows[i].color, rows[i].bones, false)
  }

  /** Every name registered in `w` is the name of some row. */
  predicate OnlyRows(w: RegistryView, rows: seq<Row>) {
    forall n | n in w.categories :: exists i | 0 <= i < |rows| :: rows[i].name == n
  }

  /** Every bone a row lists is owned, in `w`, by that row. */
  predicate OwnedByLister(w: RegistryView, rows: seq<Row>) {
    forall i, b | 0 <= i < |rows| && b in rows[i].bones :: b in w.owners && w.owners[b] == rows[i].name
  }

  /** Every owned bone in `w` is listed by the row that owns it. */
  predicate OwnersList(w: RegistryView, rows: seq<Row>) {
    forall b | b in w.owners :: exists i | 0 <= i < |rows| :: b in rows[i].bones && w.owners[b] == rows[i].name
  }

  /**
   * Replaying rows with distinct names into the empty registry succeeds and
   * registers exactly those names, each hidden with its row's colour and
   * bones.
   */
  lemma ReplayCategories(rows: seq<Row>)
    requires NamesDistinct(rows)
    ensures BuildFrom(Empty, rows).Success?
    ensures HoldsRows(BuildFrom(Empty, rows).value, rows)
    ensures OnlyRows(BuildFrom(Empty, rows).value, rows)
  {
    BuildFromSucceeds(Empty, rows);
    var w := BuildFrom(Empty, rows).value;
    forall n ensures
      && (n in w.categories <==> exists i | 0 <= i < |rows| :: rows[i].name == n)
      && (forall i | 0 <= i < |rows| && rows[i].name == n ::
            w.categories[n] == CategoryView(rows[i].color, rows[i].bones, false))
    {
      BuildFromCategories(Empty, rows, n);
    }
  }

  /**
   * Replaying rows with distinct names, no bone listed twice, into the empty
   * registry gives every listed bone to the row that lists it.
   */
  lemma ReplayOwnersListed(rows: seq<Row>)
    requires NamesDistinct(rows) && ListedOnce(rows)
    ensures BuildFrom(Empty, rows).Success?
    ensures OwnedByLister(BuildFrom(Empty, rows).value, rows)
  {
    BuildFromSucceeds(Empty, rows);
    var w := BuildFrom(Empty, rows).value;
    forall i, b | 0 <= i < |rows| && b in rows[i].bones
      ensures b in w.owners && w.owners[b] == rows[i].name
    {
      ListedBoneOwner(Empty, rows, i, b);
    }
  }

  /** A replay into the empty registry gives an owner only to bones that some row lists. */
  lemma ReplayOwnersOnlyListed(rows: seq<Row>)
    requires BuildFrom(Empty, rows).Success?
    ensures OwnersList(BuildFrom(Empty, rows).value, rows)
  {
    var w := BuildFrom(Empty, rows).value;
    forall b | b in w.owners
      ensures exists i | 0 <= i < |rows| :: b in rows[i].bones && w.owners[b] == rows[i].name
    {
      BuildFromOwners(Empty, rows, b);
      FirstListerLists(rows, b);
    }
  }

  /** A row held by `w` is registered, hidden, with its colour and bones. */
  lemma RowRegistered(w: RegistryView, rows: seq<Row>, i: nat)
    requires HoldsRows(w, rows) && i < |rows|
    ensures rows[i].name in w.categories
    ensures w.categories[rows[i].name] == CategoryView(rows[i].color, rows[i].bones, false)
  {
  }

  /** A bone a row lists is owned, in `w`, by that row. */
  lemma RowOwns(w: RegistryView, rows: seq<Row>, i: nat, b: string)
    requires OwnedByLister(w, rows) && i < |rows| && b in rows[i].bones
    ensures b in w.owners && w.owners[b] == rows[i].name
  {
  }

  /** A row that lists no bones owns none, when no other row shares its name. */
  lemma RowWithoutBonesOwnsNothing(w: RegistryView, rows: seq<Row>, i: nat)
    requires OwnersList(w, rows) && NamesDistinct(rows)
    requires i < |rows| && rows[i].bones == []
    ensures forall b | b in w.owners :: w.owners[b] != rows[i].name
  {
    forall b | b in w.owners ensures w.owners[b] != rows[i].name {
      var j :| 0 <= j < |rows| && b in rows[j].bones && w.owners[b] == rows[j].name;
      assert j != i;
    }
  }
}
