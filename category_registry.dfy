/**
 * The bone categories as objects: `Category` carries the one flag the
 * registry changes in place, and `Registry` holds the two dictionaries of
 * the class's static state. Every method is proved against the functions of
 * CategoryModel through `View()`.
 */
module CategoryRegistry {
  import opened CategoryModel
  import opened CategoryTable
  import opened BuiltRegistry

  /** A named group of bones with a default colour and a display flag. */
  class Category {
    const name: string
    const defaultColor: Color
    const possibleBones: seq<string>
    var shouldDisplay: bool

    /** A new category stores its arguments and starts hidden. */
    constructor (name: string, defaultColor: Color, boneNames: seq<string>)
      ensures this.name == name && this.defaultColor == defaultColor
      ensures possibleBones == boneNames
      ensures !shouldDisplay
    {
      this.name := name;
      this.defaultColor := defaultColor;
      possibleBones := boneNames;
      shouldDisplay := false;
    }

    /** Sets the flag; nothing ever clears it. */
    method MarkForDisplay()
      modifies this
      ensures shouldDisplay
    {
      shouldDisplay := true;
    }
  }

  /** The name of the category each bone points at. */
  ghost function OwnerNames(byBone: map<string, Category>): (owners: map<string, string>)
    ensures owners.Keys == byBone.Keys
  {
    map b | b in byBone :: byBone[b].name
  }

  /**
   * The bone loop's effect on owner names: bones that had a category keep
   * it, and the listed bones that had none now name `cat`.
   */
  lemma ClaimedOwnerNames(before: map<string, Category>, after: map<string, Category>, boneNames: seq<string>, cat: Category)
    requires forall b :: b in after <==> b in before || b in boneNames
    requires forall b | b in after :: after[b] == if b in before then before[b] else cat
    ensures OwnerNames(after) == OwnerNames(before) + map b | b in boneNames && b !in before :: cat.name
  {
    var lhs, rhs := OwnerNames(after), OwnerNames(before) + map b | b in boneNames && b !in before :: cat.name;
    forall b ensures b in lhs <==> b in rhs {
    }
    forall b | b in lhs ensures lhs[b] == rhs[b] {
      if b in before {
        assert rhs[b] == before[b].name;
      } else {
        assert rhs[b] == cat.name && after[b] == cat;
      }
    }
  }

  /**
   * Every category is filed under its own name, and every bone points at a
   * category filed under that category's name.
   */
  predicate Filed(categories: map<string, Category>, byBone: map<string, Category>) {
    (forall n | n in categories :: categories[n].name == n)
    && (forall b | b in byBone :: byBone[b].name in categories && categories[byBone[b].name] == byBone[b])
  }

  /** Filing a new category under its name, then letting it claim bones, keeps everything filed. */
  lemma FiledAfterClaim(categories: map<string, Category>, before: map<string, Category>,
                        after: map<string, Category>, boneNames: seq<string>, cat: Category)
    requires Filed(categories, before) && cat.name !in categories
    requires forall b :: b in after <==> b in before || b in boneNames
    requires forall b | b in after :: after[b] == if b in before then before[b] else cat
    ensures Filed(categories[cat.name := cat], after)
  {
  }

  /** What each category holds, by name. */
  ghost function Views(categories: map<string, Category>): (views: map<string, CategoryView>)
    reads categories.Values
    ensures views.Keys == categories.Keys
  {
    map n | n in categories :: CategoryView(categories[n].defaultColor, categories[n].possibleBones, categories[n].shouldDisplay)
  }

  /** Filing one more category leaves what the others hold as it was. */
  twostate lemma ViewsAfterAdd(categories: map<string, Category>, new cat: Category)
    requires forall n | n in categories :: unchanged(categories[n])
    ensures Views(categories[cat.name := cat])
      == old(Views(categories))[cat.name := CategoryView(cat.defaultColor, cat.possibleBones, cat.shouldDisplay)]
  {
    var lhs := Views(categories[cat.name := cat]);
    var rhs := old(Views(categories))[cat.name := CategoryView(cat.defaultColor, cat.possibleBones, cat.shouldDisplay)];
    forall n | n in lhs ensures lhs[n] == rhs[n] {
    }
  }

  /** The categories by name, and for each claimed bone the category that claimed it first. */
  class Registry {
    var categories: map<string, Category>
    var byBone: map<string, Category>

    /**
     * Every category is filed under its own name, and every bone points at
     * a category filed under that category's name.
     */
    predicate Consistent()
      reads this
    {
      Filed(categories, byBone)
    }

    /** The registry as a value: what each category holds, and the name owning each bone. */
    ghost function View(): (v: RegistryView)
      reads this, categories.Values
      ensures v.categories.Keys == categories.Keys && v.owners.Keys == byBone.Keys
    {
      RegistryView(Views(categories), OwnerNames(byBone))
    }

    /** Consistent, with the fallback registered: lookups need nothing more. */
    ghost predicate Valid()
      reads this, categories.Values
    {
      Consistent() && Ready(View())
    }

    /**
     * CreateCategory: a registered name fails and changes nothing; otherwise
     * a new hidden category is filed under `name` and claims, in order, each
     * of its bones that no category has claimed yet.
     */
    method CreateCategory(name: string, color: Color, boneNames: seq<string>) returns (r: Result<Category>)
      requires Consistent()
      modifies this
      ensures Consistent()
      ensures Register(old(View()), name, color, boneNames) == if r.Success? then Success(View()) else Failure(r.error)
      ensures r.Failure? ==> unchanged(this)
      ensures r.Success? ==> fresh(r.value) && categories == old(categories)[name := r.value]
      ensures forall n | n in old(categories) :: n in categories && categories[n] == old(categories)[n]
      ensures forall b | b in old(byBone) :: b in byBone && byBone[b] == old(byBone)[b]
    {
      if name in categories {
        return Failure(DuplicateCategory(name));
      }
      var cat := new Category(name, color, boneNames);
      categories := categories[name := cat];
      Claim(cat, boneNames);
      r := Success(cat);
      RegisterFresh(old(View()), name, color, boneNames);
      ViewsAfterAdd(old(categories), cat);
      ClaimedOwnerNames(old(byBone), byBone, boneNames, cat);
      FiledAfterClaim(old(categories), old(byBone), byBone, boneNames, cat);
    }

    /**
     * The bone loop of CreateCategory: `TryAdd(bone, cat)` for each bone in
     * order, so a bone keeps the category that claimed it first.
     */
    method Claim(cat: Category, boneNames: seq<string>)
      modifies this
      ensures categories == old(categories)
      ensures forall b :: b in byBone <==> b in old(byBone) || b in boneNames
      ensures forall b | b in byBone :: byBone[b] == if b in old(byBone) then old(byBone)[b] else cat
    {
      var i := 0;
      while i < |boneNames|
        invariant 0 <= i <= |boneNames|
        invariant categories == old(categories)
        invariant forall b :: b in byBone <==> b in old(byBone) || b in boneNames[..i]
        invariant forall b | b in byBone :: byBone[b] == if b in old(byBone) then old(byBone)[b] else cat
      {
        if boneNames[i] !in byBone {
          byBone := byBone[boneNames[i] := cat];
        }
        assert boneNames[..i + 1] == boneNames[..i] + [boneNames[i]];
        i := i + 1;
      }
      assert boneNames[..i] == boneNames;
    }

    /** DefaultCategory: the category filed under the fallback name. */
    method DefaultCategory() returns (c: Category)
      requires Valid()
      ensures c in categories.Values && c.name == Fallback
    {
      c := categories[Fallback];
    }

    /**
     * GetForBone: the category owning the bone, or the fallback; the lookup
     * marks its result unless the name is null or empty.
     */
    method GetForBone(boneName: Option<string>) returns (c: Category)
      requires Valid()
      modifies categories.Values
      ensures Valid()
      ensures (c.name, View()) == Resolve(old(View()), boneName)
      ensures c in categories.Values
    {
      if boneName.None? || boneName.value == "" {
        c := DefaultCategory();
        return;
      }
      if boneName.value in byBone {
        c := byBone[boneName.value];
      } else {
        c := DefaultCategory();
      }
      ghost var v := View();
      c.MarkForDisplay();
      assert View().categories == Mark(v, c.name).categories;
      ResolveRegistered(v, boneName);
    }

    /**
     * Replays `rows` through CreateCategory, in order; the caller knows the
     * replay succeeds.
     */
    method Replay(rows: seq<Row>)
      requires Consistent() && BuildFrom(View(), rows).Success?
      modifies this
      ensures Consistent() && BuildFrom(old(View()), rows) == Success(View())
      ensures fresh(categories.Values - old(categories.Values))
    {
      var i := 0;
      while i < |rows|
        invariant 0 <= i <= |rows|
        invariant Consistent()
        invariant BuildFrom(View(), rows[i..]) == BuildFrom(old(View()), rows)
        invariant fresh(categories.Values - old(categories.Values))
      {
        assert rows[i..][0] == rows[i] && rows[i..][1..] == rows[i + 1..];
        var r := CreateCategory(rows[i].name, rows[i].color, rows[i].bones);
        i := i + 1;
      }
    }

    /** The static constructor's body: the table replayed into an empty registry. */
    method ReplayTable()
      requires Consistent() && View() == Empty && categories.Values == {}
      modifies this
      ensures Consistent() && View() == Built()
      ensures fresh(categories.Values)
    {
      assert BuildFrom(Empty, Table) == Success(Built());
      Replay(Table);
      forall c | c in categories.Values ensures fresh(c) {
        assert c in categories.Values - {};
      }
    }

    /** The static constructor: the registrations of the table, in order. */
    constructor ()
      ensures Valid() && View() == Built()
      ensures fresh(categories.Values)
    {
      categories := map[];
      byBone := map[];
      new;
      assert View() == Empty && categories.Values == {};
      ReplayTable();
      BuiltReady();
    }
  }
}
