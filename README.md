# DLFS record store

A model of the lost-and-found system's controller, `DLFSController`. It keeps
three ordered collections of flat records: users, reported items and claims.
A user logs in by email and password. Users report items, each with a generated
id `ITEM-nnnn` and status `reported`. They search items by name (case-insensitive
substring), by location, or by type. They file claims, each with a generated id
`CLM-nnnn` and status `pending`. An administrator approves a claim: the first
claim with that id becomes `approved`, and every item carrying the claim's item
id becomes `claimed`. Every successful mutation writes all three collections back.

Files:

- `options.dfy`: `Option`, the result of a login that found nobody.
- `text.dfy`: ASCII lower-casing, substring containment (Python's `in` on strings),
  and the decimal rendering of id numbers together with its parser.
- `records.dfy`: the record types and the `Db` triple of collections. Also the id
  shape, the `ReportedItem` and `Claim` constructors, the default administrator
  and the status invariant.
- `search.dfy`: the three item searches as one order-keeping `Filter` over a `Query`.
- `approval.dfy`: what approving a claim does, as a function of the old collections.
- `controller.dfy`: class `Controller`, whose `seq` fields the methods reassign.
  A ghost snapshot `saved` stands for what `save_all` last wrote to disk.

Two points of the code that the model keeps as written:

- Approval marks every item whose id matches the claim's item id, not just the first one.
- A failed approval writes nothing to disk. Only successful mutations persist.

## Model

| member | source | states |
|---|---|---|
| Text.Lower | dlfs.py:118 | the result has the input's length and no ASCII capital; every non-capital is kept, every capital becomes the character 32 code points higher |
| Text.SameUpToCaseIffLowerEqual | dlfs.py:118 | two strings lower-case to the same string exactly when they have equal length and differ only in the case of ASCII letters |
| Text.LowerIdempotent | dlfs.py:118 | lower-casing an already lower-cased string changes nothing |
| Text.ContainsIffOccurs | dlfs.py:118 | `needle in hay` holds exactly when needle occurs at some position of hay |
| Text.Digits | dlfs.py:71 | the rendering of a number is a non-empty string of decimal digits |
| Text.ParseDigits | dlfs.py:71 | reading the rendering of n back gives n |
| Text.FourDigits | dlfs.py:71 | every number randint(1000, 9999) can draw renders as four digits |
| Records.IdRoundTrip | dlfs.py:70-71 | an id is its prefix plus four digits, and the drawn number can be read back from it |
| Records.IdsCollideIffSameNumber | dlfs.py:81-82 | two generated ids with the same prefix are equal exactly when the same number was drawn, so collisions are possible and unchecked |
| Records.NewItem | dlfs.py:67-76 | a new item carries name, description, location and type verbatim, status reported, and an `ITEM-` id holding the drawn number |
| Records.NewClaim | dlfs.py:78-85 | a new claim carries user id and item id verbatim, status pending, and a `CLM-` id holding the drawn number |
| Search.Filter | dlfs.py:116-118 | the result holds exactly the stored items that match the query, and is no longer than the collection |
| Search.FilterAppend | dlfs.py:118 | filtering a concatenation is concatenating the filtered parts, so stored order is kept |
| Search.FilterAllMatch | dlfs.py:118 | when every item matches, the whole collection comes back in order |
| Search.FilterAgrees | dlfs.py:118 | two queries accepting the same items give equal results |
| Search.SearchEmptyKeyword | dlfs.py:116-118 | searching with the empty keyword returns every item, in order |
| Search.SearchIgnoresCase | dlfs.py:118 | keywords equal up to letter case give equal results |
| Search.SearchSameUpToCase | dlfs.py:118 | keywords that differ only in the case of their letters give equal results |
| Search.SearchLowersKeyword | dlfs.py:118 | a keyword and its lower-cased form give equal results |
| Search.LocationIgnoresCase | dlfs.py:202-204 | locations equal up to letter case give equal results in the location filter |
| Search.TypeFiltersPartition | dlfs.py:212-217 | when every item is lost or found, the lost and found filters together return every stored item exactly once (as multisets, and so also by count) |
| Approval.FirstClaimIndex | dlfs.py:129-130 | the index found has the id and no earlier claim has it; none is found only when no claim has the id |
| Approval.MarkClaimed | dlfs.py:133-135 | length is kept; items with the id get status claimed and no other field changes; other items are untouched |
| Approval.Approve | dlfs.py:127-138 | reports success exactly when some claim has the id; on failure nothing changes; users and the collection lengths never change |
| Approval.ApproveFirstMatch | dlfs.py:129-137 | only the first matching claim becomes approved, every other claim is unchanged, and exactly the items with that claim's item id become claimed |
| Approval.ApproveIdempotent | dlfs.py:129-137 | approving the same id twice yields the same collections and result as approving it once |
| Approval.ApproveKeepsStatuses | dlfs.py:127-138 | approval keeps items within reported/claimed and claims within pending/approved |
| Dlfs.Controller.Load | dlfs.py:90-94 | the store holds exactly the loaded collections, which are assumed equal to disk at load |
| Dlfs.Controller.Bootstrap | dlfs.py:14-29 | on an empty data directory the store holds only the default administrator, no items and no claims |
| Dlfs.Controller.SaveAll | dlfs.py:96-100 | afterwards what is on disk equals the three in-memory collections, which are unchanged |
| Dlfs.Controller.Login | dlfs.py:102-107 | returns the first user whose email and password both match exactly, None exactly when no user matches, and changes nothing |
| Dlfs.Controller.ReportItem | dlfs.py:109-114 | appends exactly one new item, returns its id carrying the drawn number, leaves users and claims alone, keeps the status invariant, and persists |
| Dlfs.Controller.SearchItems | dlfs.py:116-118 | returns exactly the items whose lower-cased name contains the lower-cased keyword, every item for the empty keyword, and changes nothing |
| Dlfs.Controller.ClaimItem | dlfs.py:120-125 | appends exactly one pending claim for the given user and item, without looking either up, returns its id, keeps the status invariant, and persists |
| Dlfs.Controller.ApproveClaim | dlfs.py:127-138 | the new collections and the result are those of `Approve` on the old ones; it persists on success, leaves disk alone on failure, and keeps the status invariant |
| Dlfs.AdminLogsInAfterBootstrap | dlfs.py:20-26 | on a freshly seeded store the default administrator's credentials log in as that administrator |

## Left out

- Disk persistence is left out. That covers creating the data directory, seeding the files, JSON encoding, `load_data` (which turns a corrupt file into an empty list) and `save_data`. `Load` takes the collections as they come back, and `SaveAll` only records a ghost snapshot. This is file I/O.
- The random id number is a parameter `n` with 1000 <= n <= 9999 rather than a draw by `random.randint`. Randomness is not modelled.
- Aliasing is left out. `login` and `search_items` return the stored dictionaries themselves, so a later approval is visible through them. The model uses values, so returned records are copies.
- Dlfs.Controller.SearchItems: lower-casing is ASCII only. Python's `str.lower` applies the full Unicode case mapping, which is not modelled.
- Records are typed. A stored dictionary that lacks a field (a `KeyError` in the source) cannot occur. `role` is the tag `Role` instead of the strings "user"/"admin".
- The `User` and `Admin` classes and the `uuid` import are unused by the controller and are not modelled.
- The console menus are left out. That includes printing, reading input, the global controller, and the choice of "lost"/"found" from the typed option. Only the location and type filters inside them are modelled, as `Search.Filter` queries.
- The item statuses "approved" and "returned" named in the constructor's comment are never set by any operation. The status invariant therefore uses reported/claimed.
