# Ktisis bone categories, modelled in Dafny

Ktisis groups the bones of a character skeleton into named categories
("body", "head", "hair", "clothes", the hands, "tail", "ears", "feet" and the
IVCS groups). Each category has a name, a default colour, the list of bones it
may contain, and a `ShouldDisplay` flag. The class keeps two static
dictionaries: the categories by name, and for each bone the category that
claimed it. Its static constructor registers eighteen categories, in order,
starting with the fallback "other", which has no bones.

The project models `Ktisis/Structs/Bones/Category.cs`:

- `category_model.dfy` (module `CategoryModel`) gives the registry as a
  value. `Register` is `CreateCategory`: a duplicate name fails, and the bone
  loop hands each bone that has no owner yet to the new category, so the
  first owner wins. `Resolve` is `GetForBone`. `BuildFrom` replays a list of
  registrations. The lemmas prove what these promise.
- `category_table.dfy` (module `CategoryTable`) is the static constructor's
  table of registrations, copied in order with its colours and bone lists.
  It also gives each row's bones as a set and proves those sets pairwise
  disjoint.
- `built_registry.dfy` (module `BuiltRegistry`) proves what the static
  constructor leaves behind:
  - no bone name appears in two rows;
  - replaying the table succeeds;
  - every listed bone belongs to its row;
  - "other" and "feet" own nothing;
  - "j_kao" belongs to "head", because its entry in the "body" list is
    commented out.
- `category_registry.dfy` (module `CategoryRegistry`) holds the imperative
  classes:
  - `Category` has the flag that `MarkForDisplay` sets in place.
  - `Registry` has the two dictionaries as maps of `Category` objects. Its
    `CreateCategory`, `GetForBone` and constructor are proved against
    `Register`, `Resolve` and the built registry through `View()`.

Lookups follow the code. A null or empty bone name returns "other" and
changes no flag. Any other name marks the category it returns. That includes
an unknown name, which returns "other" and marks it (`Category.cs:50-55`; see
`CategoryModel.ResolveNamed`).

## Model

| member | source | states |
|---|---|---|
| CategoryModel.ClaimBones | Ktisis/Structs/Bones/Category.cs:32-35 | The `TryAdd` loop keeps every existing owner, and every bone it adds is a listed bone given to the new name. `ClaimBonesFirstOwnerWins` gives the exact result. |
| CategoryModel.ClaimBonesFirstOwnerWins | Ktisis/Structs/Bones/Category.cs:32-35 | The bone loop keeps every existing owner. It gives exactly the listed bones that had no owner to the new category. |
| CategoryModel.Register | Ktisis/Structs/Bones/Category.cs:27-37 | Registration fails exactly when the name is already registered, as `Dictionary.Add` throws. The error names the duplicate. |
| CategoryModel.RegisterFresh | Ktisis/Structs/Bones/Category.cs:21-37 | A fresh name adds one hidden category holding the given colour and bones, and leaves the other categories as they were. Existing owners stay; unowned listed bones go to the new name. |
| CategoryModel.RegisterKeepsWellFormed | Ktisis/Structs/Bones/Category.cs:27-37 | After a registration, every bone's owner is still a registered category. |
| CategoryModel.RegisterMonotone | Ktisis/Structs/Bones/Category.cs:27-37 | Registration keeps every existing category unchanged, flag included. |
| CategoryModel.Mark | Ktisis/Structs/Bones/Category.cs:39-42 | Marking sets that category's flag and changes nothing else: its colour and bones stay, every other category stays, and the category names and bone owners stay. |
| CategoryModel.Resolve | Ktisis/Structs/Bones/Category.cs:43-56 | A lookup returns a registered category, keeps every owner and registers no new name. `ResolveNullOrEmpty` and `ResolveNamed` give the result case by case. |
| CategoryModel.ResolveNullOrEmpty | Ktisis/Structs/Bones/Category.cs:43-48 | A null or empty bone name gives "other" and leaves the registry unchanged, so no flag changes. |
| CategoryModel.ResolveNamed | Ktisis/Structs/Bones/Category.cs:45-56 | A non-empty name gives its owner, or "other" when it has none. The flag of the result is set. Nothing else changes: other categories, the result's colour and bones, and every owner stay as they were. |
| CategoryModel.ResolveRegistered | Ktisis/Structs/Bones/Category.cs:43-56 | Every lookup returns a registered category and leaves the registry ready for lookups. |
| CategoryModel.ResolveMonotone | Ktisis/Structs/Bones/Category.cs:39-42 | A lookup never clears a flag. |
| CategoryModel.ResolveIdempotent | Ktisis/Structs/Bones/Category.cs:45-56 | Repeating a lookup gives the same category and changes nothing more. |
| CategoryModel.BuildFrom | Ktisis/Structs/Bones/Category.cs:58-324 | A successful replay keeps every category and every owner it started with. `BuildFromCategories` and `BuildFromOwners` give the full result. |
| CategoryModel.BuildFromSucceeds | Ktisis/Structs/Bones/Category.cs:27-37 | A replay of registrations whose names are distinct and not yet registered succeeds. |
| CategoryModel.BuildFromDuplicateFails | Ktisis/Structs/Bones/Category.cs:29-31 | A replay that meets an already registered name fails. |
| CategoryModel.BuildFromFailsOnRepeat | Ktisis/Structs/Bones/Category.cs:29-31 | A replay fails when two rows share a name or a row names a category registered before it started; with `BuildFromSucceeds`, a replay succeeds exactly when neither happens. |
| CategoryModel.BuildFromOwners | Ktisis/Structs/Bones/Category.cs:32-35 | Across a replay, an existing owner stays. An unowned bone goes to the first row that lists it. No other bone gets an owner. |
| CategoryModel.BuildFromCategories | Ktisis/Structs/Bones/Category.cs:27-37 | A replay registers one hidden category per row, holding that row's colour and bones. It keeps the categories it started with. |
| CategoryModel.BuildFromKeepsWellFormed | Ktisis/Structs/Bones/Category.cs:27-37 | A replay keeps every owner a registered category. |
| CategoryModel.FirstListerAt | Ktisis/Structs/Bones/Category.cs:32-35 | The first row to list a bone is the row at `i` when no earlier row lists it. |
| CategoryModel.FirstListerLists | Ktisis/Structs/Bones/Category.cs:32-35 | The first lister of a bone really lists it. |
| CategoryModel.ListedBoneOwner | Ktisis/Structs/Bones/Category.cs:32-35 | When no bone is listed twice, a replay gives every listed bone that had no owner before the replay to the row that lists it. |
| CategoryModel.ListedOnceExtend | Ktisis/Structs/Bones/Category.cs:58-324 | Taking one more row whose bones are all new keeps "no bone listed twice". |
| CategoryModel.ReplayCategories | Ktisis/Structs/Bones/Category.cs:27-37 | Replaying rows with distinct names into the empty registry registers exactly those names. Each is hidden, with its row's colour and bones. |
| CategoryModel.ReplayOwnersListed | Ktisis/Structs/Bones/Category.cs:32-35 | With distinct names and no bone listed twice, every listed bone belongs to its row. |
| CategoryModel.ReplayOwnersOnlyListed | Ktisis/Structs/Bones/Category.cs:32-35 | Only listed bones get an owner, and each owner is a row that lists the bone. |
| CategoryModel.RowWithoutBonesOwnsNothing | Ktisis/Structs/Bones/Category.cs:32-35 | A category registered with no bones owns no bone, when no other row shares its name. |
| CategoryTable.HeadApart | Ktisis/Structs/Bones/Category.cs:100-140 | No "head" bone is listed by "body". |
| CategoryTable.ClothesApart | Ktisis/Structs/Bones/Category.cs:148-185 | No "clothes" bone is listed by an earlier row. |
| CategoryTable.EarsApart | Ktisis/Structs/Bones/Category.cs:222-244 | No "ears" bone is listed by an earlier row. |
| CategoryTable.IvcsButtocksApart | Ktisis/Structs/Bones/Category.cs:314-323 | No "ivcs buttocks" bone is listed by an earlier row. |
| CategoryTable.PlainNoneStartsWithI | Ktisis/Structs/Bones/Category.cs:65-244 | No bone name of the rows before the IVCS ones starts with 'i', so none meets an IVCS name. |
| BuiltRegistry.TableListsEachBoneOnce | Ktisis/Structs/Bones/Category.cs:58-324 | No bone name appears in two rows of the static constructor. |
| BuiltRegistry.TableNamesDistinct | Ktisis/Structs/Bones/Category.cs:58-324 | The eighteen category names are distinct, so the static constructor never throws. |
| BuiltRegistry.Built | Ktisis/Structs/Bones/Category.cs:58-324 | Replaying the table from the empty registry succeeds. |
| BuiltRegistry.BuiltCategories | Ktisis/Structs/Bones/Category.cs:58-324 | Every row is registered, hidden, with its colour and bones, and no other name is. |
| BuiltRegistry.BuiltOwners | Ktisis/Structs/Bones/Category.cs:58-324 | Every listed bone resolves to the row that lists it. No unlisted bone has an owner. |
| BuiltRegistry.BuiltWellFormed | Ktisis/Structs/Bones/Category.cs:58-324 | Every owner in the built registry is a registered category. |
| BuiltRegistry.BuiltReady | Ktisis/Structs/Bones/Category.cs:43 | The built registry contains "other", so `DefaultCategory` never throws. |
| BuiltRegistry.BuiltFallbackOwnsNothing | Ktisis/Structs/Bones/Category.cs:62-63 | "other" exists, is registered with no bones and owns none. |
| BuiltRegistry.BuiltFeetOwnsNothing | Ktisis/Structs/Bones/Category.cs:246 | "feet" is registered with no bones and owns none. |
| BuiltRegistry.BodyOmitsKao | Ktisis/Structs/Bones/Category.cs:86 | The "body" list does not contain "j_kao": its entry there is commented out. |
| BuiltRegistry.BuiltHeadOwnsKao | Ktisis/Structs/Bones/Category.cs:100-101 | "j_kao" belongs to "head". |
| BuiltRegistry.BuiltWaistIsBody | Ktisis/Structs/Bones/Category.cs:65-69 | Looking up "j_kosi" in the built registry gives "body" and marks it. |
| CategoryRegistry.Category.constructor | Ktisis/Structs/Bones/Category.cs:11-26 | A new category stores its name, colour and bones, and starts hidden. |
| CategoryRegistry.Category.MarkForDisplay | Ktisis/Structs/Bones/Category.cs:39-42 | The flag is set. |
| CategoryRegistry.ClaimedOwnerNames | Ktisis/Structs/Bones/Category.cs:32-35 | Bones that had an owner keep it. The listed bones that had none now name the new category. |
| CategoryRegistry.FiledAfterClaim | Ktisis/Structs/Bones/Category.cs:30-35 | Filing a new category under its name and letting it claim bones keeps every bone pointing at a category filed under its own name. |
| CategoryRegistry.ViewsAfterAdd | Ktisis/Structs/Bones/Category.cs:30-31 | Adding a category leaves what every other category holds unchanged. |
| CategoryRegistry.Registry.CreateCategory | Ktisis/Structs/Bones/Category.cs:27-37 | The new state is what `Register` gives the old one. A duplicate name fails and changes nothing. On success the new category object is fresh and filed under its name, every existing category object stays filed under its name, and every bone keeps the object it pointed at. |
| CategoryRegistry.Registry.Claim | Ktisis/Structs/Bones/Category.cs:32-35 | The `TryAdd` loop gives each listed bone without a category to the new one. It leaves every other bone as it was. |
| CategoryRegistry.Registry.DefaultCategory | Ktisis/Structs/Bones/Category.cs:43 | Returns the registered category named "other". |
| CategoryRegistry.Registry.GetForBone | Ktisis/Structs/Bones/Category.cs:45-56 | The returned category and the new state are what `Resolve` gives the old state, and the registry stays ready for lookups. |
| CategoryRegistry.Registry.Replay | Ktisis/Structs/Bones/Category.cs:58-324 | Running `CreateCategory` on each row in order yields the state `BuildFrom` gives. Every category object it adds is new. |
| CategoryRegistry.Registry.ReplayTable | Ktisis/Structs/Bones/Category.cs:58-324 | Replaying the table into an empty registry leaves exactly the built registry, and every category object in it is new. |
| CategoryRegistry.Registry.constructor | Ktisis/Structs/Bones/Category.cs:58-324 | The static constructor leaves exactly the built registry, and every category object in it is new. The registry is ready for lookups, and the caller may look bones up at once. |

## Left out

- `Ktisis/Overlay/Skeleton.cs` is not part of this model. It is the rendering overlay: it draws each bone the configuration marks visible, in a colour the configuration picks for the bone's category, and never reads `ShouldDisplay`.
- Colours are four reals that are stored and handed back, never computed with. Single-precision rounding of the `Vector4` values is not modelled.
- The `ReadOnlyCollection` and `ReadOnlyDictionary` wrappers behind `PossibleBones` and `Categories` only limit callers, so they are not modelled.
- The public setters of `Name` and `DefaultColor` are not modelled. No code in the core uses them, so the fields are `const`.
- CategoryRegistry.Registry.CreateCategory: a duplicate name is returned as a `Failure` rather than thrown. The C# code has already built the `Category` object when `Dictionary.Add` throws. That object is unreachable, so the model checks the name before it builds the object.
- CategoryRegistry.Registry.DefaultCategory: requires "other" to be registered. In the C# code `Categories["other"]` would throw otherwise, but the static constructor registers "other" first, so the throw cannot happen. The model's constructor proves the registry is ready.
- CategoryRegistry.Registry.GetForBone: requires a ready registry, for the same reason.
- Aliasing of the bone list is not modelled. The C# category keeps the caller's `List<string>`, so a later change to that list would change `PossibleBones`. The model stores an immutable copy instead.
- The static constructor runs once, on first use of the class. The model has an ordinary `Registry` constructor instead; thread safety of the static dictionaries is not modelled.
- The pairwise "no shared name" lemmas of `CategoryTable` for the remaining rows have no row of their own above; `BuiltRegistry.TableListsEachBoneOnce` states their combined result.
