# Menu collection model

A Dafny model of the in-memory record collection of the `menu-app-ui-pp4`
application (`menu-app-ui-pp4/main.js`): the `MenuItem` data class with its
`uuidv4` id generator, the `Menu` class that keeps an ordered private array of
records (construction from a seed list, lookup by id, append, replace-in-place
update, remove-one, remove-all), and the two string transformations the form
applies to the contacts list (join with `", "` when a record is shown for
editing, split on `","` and trim when the form is submitted), together with the
submit handler's choice between adding and updating.

Files:

- `js.dfy` (module `Js`): the JavaScript values the application passes around
  (`undefined`, `null`, strings, arrays of strings), truthiness, property reads
  and object spreads, and `Option`/`Result`.
- `menu_item.dfy` (module `Items`): the `uuidv4` template substitution, the
  random source as an explicit object (`Rng`), the `MenuItem` record and its
  constructor, and the `{ ...item, ...updates }` merge.
- `menu.dfy` (module `Menus`): the operations as functions of the record
  sequence with lemmas about them, and the `Menu` class whose methods mutate
  its `items` field and are proved against those functions.
- `form_text.dfy` (module `FormText`): `trim`, `split(",")`, `join`, the text a
  form field shows for a property, and the contacts round trip.
- `controller.dfy` (module `Controller`): the submit handler's contacts split
  and add-or-update dispatch.

Modelling choices:

- `Math.random` is an `Rng` object holding the successive values of
  `(Math.random() * 16) | 0` as a function `draw: nat -> Hex` and the number of
  values consumed so far. Each generated id consumes 31 of them, one per `x` of
  the template. Two ids are equal exactly when their draws are
  (`Uuidv4Injective`). Nothing in the code makes the draws differ, so the model
  never claims that ids are unique. The lemmas about uniqueness assume it, and
  `RemoveWithDuplicateStillFinds` shows what happens when two records share an id.
- The id template has 31 `x` and no `y`. The regular expression `/[x]/g` only
  matches `x`, so the callback's `(r & 0x3) | 0x8` branch is never taken
  (`Replacement` models it; `Substitute` only calls it on `x`). A generated id
  is 35 characters long and has no version digit.
- An object argument is either `null`/`undefined` or a map of its own
  properties. A property read of a missing key gives `undefined`. A spread is
  map union, where the right-hand side wins.
- `updateItem` builds the replacement with `new MenuItem(...)`. That constructor
  ignores `_id`, so the replacement always gets a freshly generated id
  (`Merge`, `UpdateReplaces`). The model follows the code here. Any reading in
  which an update keeps the record's id does not match the code.
- The code does not keep ids unique. The model therefore does not claim that
  `add` produces an id unique in the collection, or that a removed id can never
  be found again. Those hold only under the `UniqueIds` assumption
  (`AddKeepsUnique`, `RemoveForgetsId`, `UpdateRenames`).
- The contacts round trip needs a non-empty list. An empty list is shown as
  `""`, and `"".split(",")` is `[""]`. So editing a record with no contacts and
  submitting the form gives it one empty contact (`EmptyContactsComeBackBlank`,
  `EditSubmitBlanksEmptyContacts`).
- What `getItem`, `getAllItems`, `addItem`, `updateItem` and `removeItem`
  return is a plain value here. In the code only `getItem`, `addItem` and
  `updateItem` return a shallow copy of a record. `getAllItems` and
  `removeItem` copy only the array and hand back the stored records
  themselves. Dafny sequences and datatypes are immutable, so the model
  cannot express a caller changing a stored record through what a call
  returns (see "## Left out").

## Model

| member | source | states |
|---|---|---|
| `Items.Substitute` | menu-app-ui-pp4/main.js:7-11 | the replace keeps the template's length and every non-`x` character, and turns every `x` into one lower-case hex digit |
| `Items.Replacement` | menu-app-ui-pp4/main.js:9 | the callback keeps the random value for `x`, and for any other character gives a value from 8 to 11 that agrees with the random value in its two low bits |
| `Items.SubstituteRoundTrip` | menu-app-ui-pp4/main.js:7-11 | reading the hex digits back at the template's `x` positions gives exactly the random values drawn, in order |
| `Items.HexCharRoundTrip` | menu-app-ui-pp4/main.js:10 | `v.toString(16)` of a value below 16 is a single hex digit that reads back as that value |
| `Items.TemplateShape` | menu-app-ui-pp4/main.js:7 | the template is 35 characters long with hyphens at positions 8, 13, 18 and 22 and `x` everywhere else, so it needs 31 random values |
| `Items.TemplateCount` | menu-app-ui-pp4/main.js:7 | the template holds 31 `x` characters, so one id takes 31 random values |
| `Items.Uuidv4` | menu-app-ui-pp4/main.js:6-12 | a generated id is as long as the template, keeps the template's hyphens and has a lower-case hex digit at every `x` position |
| `Items.IdAtLength` | menu-app-ui-pp4/main.js:6-12 | every generated id is 35 characters long, so never the empty string |
| `Items.Uuidv4Shape` | menu-app-ui-pp4/main.js:6-12 | a generated id is as long as the template, has hyphens at the template's hyphen positions and a hex digit everywhere else, each being the value drawn for it |
| `Items.Uuidv4Injective` | menu-app-ui-pp4/main.js:6-12 | two ids are equal only when the random values drawn for them are equal |
| `Items.Rng.NextId` | menu-app-ui-pp4/main.js:8 | generating an id consumes 31 random values and yields the id those values determine |
| `Items.ContactsOrDefault` | menu-app-ui-pp4/main.js:16 | the `contacts = []` default applies exactly when the property reads as `undefined` and then gives the empty list; any other value, `null` included, is kept as it is |
| `Items.Build` | menu-app-ui-pp4/main.js:15-24 | a constructed record carries the generated id, whatever `_id` the data holds, and its contacts are never undefined |
| `Items.BuildIgnoresGivenId` | menu-app-ui-pp4/main.js:16-18 | an `_id` in the constructor's data has no effect on the record built |
| `Items.RebuildIsIdentity` | menu-app-ui-pp4/main.js:16-23 | constructing from a record's own spread with its own id gives back that record |
| `Items.Merge` | menu-app-ui-pp4/main.js:118 | each field of `new MenuItem({...item, ...updates})` comes from the updates when they have that property, and otherwise from the old record; the contacts default applies again; the id is the new one |
| `Js.Truthy` | menu-app-ui-pp4/main.js:99 | a value is falsy exactly when it is `undefined`, `null` or the empty string |
| `Menus.IndexOf` | menu-app-ui-pp4/main.js:52-54 | `findIndex` returns -1 exactly when no record holds the id, and otherwise the first position holding it |
| `Menus.RemoveAt` | menu-app-ui-pp4/main.js:136 | `splice(i, 1)` shortens the sequence by one, keeps positions before `i`, shifts the later ones down by one, and removes exactly one occurrence of the record at `i` |
| `Menus.SpliceReplaces` | menu-app-ui-pp4/main.js:122 | `splice(i, 1, item)` gives the sequence with only position `i` replaced by `item` |
| `Menus.SeedItems` | menu-app-ui-pp4/main.js:37-39 | the records built for the first `n` seed elements are `n` constructed records |
| `Menus.SeedItemsAt` | menu-app-ui-pp4/main.js:37-39 | the `k`-th record built for a seed is the one built from its `k`-th element with the id drawn after `k` earlier ids |
| `Menus.FindIndex` | menu-app-ui-pp4/main.js:43-60 | `getItemIndex` fails with the missing-id error on `undefined` and with the not-a-string error on `null` or an array; on a string it returns -1 when no record holds the id and otherwise the first position holding it |
| `Menus.Lookup` | menu-app-ui-pp4/main.js:63-72 | `getItem` fails exactly when the id is not a string, returns `null` exactly when no record holds it, and otherwise the first record holding it |
| `Menus.Added` | menu-app-ui-pp4/main.js:80-94 | `addItem` succeeds exactly when data is given; a failure changes nothing; a success appends the returned record, which carries the generated id |
| `Menus.Updated` | menu-app-ui-pp4/main.js:97-125 | `updateItem` keeps the number of records and their constructed state; a failure changes nothing; a success needs a string id that some record holds, puts the returned record under the generated id at the first position holding the id, and leaves every other position as it was |
| `Menus.Removed` | menu-app-ui-pp4/main.js:128-139 | `removeItem` returns the remaining records, one fewer, exactly on a hit; otherwise nothing changes; it returns `null` exactly for a non-empty string id that no record holds |
| `Menus.LookupErrors` | menu-app-ui-pp4/main.js:43-51 | `getItemIndex` and `getItem` fail exactly when the id is not a string: with the missing-id error for `undefined`, with the not-a-string error for `null` or an array |
| `Menus.LookupFinds` | menu-app-ui-pp4/main.js:63-72 | `getItem` returns `null` exactly when no record holds the id, and otherwise the first record holding the id |
| `Menus.AddAppends` | menu-app-ui-pp4/main.js:80-93 | falsy data is refused with nothing changed; otherwise exactly one record is appended at the end, the earlier records are unchanged, its fields come from the data with contacts defaulting to `[]`, its id is the generated one, and it is what the call returns |
| `Menus.IndexOfAppend` | menu-app-ui-pp4/main.js:90 | after an append the new record's id is found at the end, unless an earlier record already holds the same id |
| `Menus.UpdateErrors` | menu-app-ui-pp4/main.js:97-115 | `updateItem` fails on a falsy id, on a non-string id and with "Item not found" on an unknown id, and every failure leaves the records unchanged; it succeeds exactly for a non-empty string id that some record holds |
| `Menus.UpdateReplaces` | menu-app-ui-pp4/main.js:117-124 | a successful update keeps the length, replaces only the first record holding the id with the merge of the updates over it under a freshly generated id, leaves every other position as it was, and returns the replacement |
| `Menus.RemoveErrors` | menu-app-ui-pp4/main.js:128-135 | `removeItem` fails on a falsy id and on a non-string id, returns `null` when no record holds the id, and in all these cases leaves the records unchanged |
| `Menus.RemoveDeletes` | menu-app-ui-pp4/main.js:132-138 | a hit removes exactly the first record holding the id, keeps the others in their order, and returns the remaining records |
| `Menus.AddKeepsUnique` | menu-app-ui-pp4/main.js:87-90 | if ids were unique and the generated id is new, they stay unique and the new record is found last |
| `Menus.RemoveForgetsId` | menu-app-ui-pp4/main.js:136 | if ids were unique they stay unique after a removal and the removed id is no longer found |
| `Menus.RemoveWithDuplicateStillFinds` | menu-app-ui-pp4/main.js:52-54 | when two records share an id, removing the first still leaves that id findable |
| `Menus.UpdateRenames` | menu-app-ui-pp4/main.js:118-122 | if ids were unique and the generated id is new, an update keeps them unique, the replacement is found at the same position under the new id, and the old id is no longer found |
| `Menus.Menu.constructor` | menu-app-ui-pp4/main.js:29-30 | a menu created without a seed holds no records |
| `Menus.Menu.Create` | menu-app-ui-pp4/main.js:30-40 | the constructor refuses a non-array argument and throws on a `null` or `undefined` element, after drawing ids for the elements before it; otherwise it holds exactly one record per element, in element order, each built from its element with a freshly generated id |
| `Menus.Menu.GetItemIndex` | menu-app-ui-pp4/main.js:43-60 | a missing id and a non-string id are errors; for a string id the scan returns -1 when no record holds it and otherwise the first position holding it |
| `Menus.Menu.GetItem` | menu-app-ui-pp4/main.js:63-72 | returns the lookup's error, `null` on a miss, or the stored record at the found position |
| `Menus.Menu.GetAllItems` | menu-app-ui-pp4/main.js:75-77 | returns the whole record sequence in order and changes nothing |
| `Menus.Menu.AddItem` | menu-app-ui-pp4/main.js:80-94 | the result and the new records are those of `Added`, and one id's worth of random values is drawn exactly when the call succeeds |
| `Menus.Menu.UpdateItem` | menu-app-ui-pp4/main.js:97-125 | the result and the new records are those of `Updated`, and one id's worth of random values is drawn exactly when the call succeeds |
| `Menus.Menu.RemoveItem` | menu-app-ui-pp4/main.js:128-139 | the result and the remaining records are those of `Removed` |
| `Menus.Menu.RemoveAllItems` | menu-app-ui-pp4/main.js:140-142 | the collection is left empty |
| `FormText.TrimStart` | menu-app-ui-pp4/main.js:255 | the result is a suffix of the input, everything dropped is white space, and it does not start with white space |
| `FormText.TrimEnd` | menu-app-ui-pp4/main.js:255 | the result is a prefix of the input, everything dropped is white space, and it does not end with white space |
| `FormText.Trim` | menu-app-ui-pp4/main.js:255 | `trim` yields a string without white space at either end, white space being the ECMAScript white-space and line-terminator code points, and leaves such a string unchanged |
| `FormText.TrimDropsLeadingSpace` | menu-app-ui-pp4/main.js:255 | trimming a trimmed string preceded by the separator's space gives the string back |
| `FormText.Join` | menu-app-ui-pp4/main.js:348 | `join` of an empty array is the empty string |
| `FormText.JoinStartsWithFirst` | menu-app-ui-pp4/main.js:348 | a joined array starts with its first element |
| `FormText.Split` | menu-app-ui-pp4/main.js:255 | `split(",")` gives at least one piece, no piece contains a comma, and joining the pieces with `","` gives the input back |
| `FormText.TrimAll` | menu-app-ui-pp4/main.js:255 | trimming every piece keeps the number of pieces and leaves each one trimmed |
| `FormText.SplitTrim` | menu-app-ui-pp4/main.js:255 | the split-and-trim yields one trimmed contact per comma-separated piece |
| `FormText.FieldText` | menu-app-ui-pp4/main.js:296-298 | a falsy property is shown as the empty string |
| `FormText.SplitJoin` | menu-app-ui-pp4/main.js:347-349 | splitting a `", "`-joined list of comma-free strings gives the first string and then every other one preceded by a space |
| `FormText.ContactsRoundTrip` | menu-app-ui-pp4/main.js:347-349 | joining a non-empty list of comma-free, trimmed strings with `", "` and then splitting on `","` and trimming gives the list back |
| `FormText.EmptyContactsComeBackBlank` | menu-app-ui-pp4/main.js:347-349 | the empty list comes back from the join, split and trim as one empty string |
| `Menus.RemoveAddScenario` | menu-app-ui-pp4/main.js:128-139 | in a collection of records named A, B and C where A and B have different ids, removing B by its id and then adding D leaves A, C and D in that order |
| `Controller.SplitContacts` | menu-app-ui-pp4/main.js:255 | the split throws exactly when the contacts field is missing or not a single string; otherwise only the contacts property changes and it becomes the list of trimmed pieces |
| `Controller.Submit` | menu-app-ui-pp4/main.js:252-266 | after the contacts split, a truthy `_id` makes the handler call `updateItem` with the whole data; otherwise it deletes `_id` and calls `addItem`; a failed split changes nothing |
| `Controller.EditSubmitKeepsContacts` | menu-app-ui-pp4/main.js:255 | a form populated from a non-empty list of comma-free, trimmed contacts submits that same list |
| `Controller.EditSubmitBlanksEmptyContacts` | menu-app-ui-pp4/main.js:347-349 | a form populated from an empty contacts list submits a list holding one empty contact |

## Left out

- Rendering (`render`, `updateUIMode`), the click listener for edit and delete, and `clearForm` are left out. They only build DOM nodes and wire events.
- `populate` is not modelled beyond the text a text field shows for a property (`FieldText`). Its form-element lookup and its checkbox and select-multiple branches depend on browser form elements.
- `serialize` is not modelled. The submit handler takes its result as a given map of field names to values.
- `Math.random` is not modelled. `Rng` supplies its successive values.
- Console logging, including the not-found message of `getItemIndex`, is left out. It has no effect on behaviour.
- The text of the error messages is left out. Only the kind of error is kept.
- The `rawData` seed literal and the commented-out demo code are left out. `Menus.SeedRemoveAddScenario` plays through a similar seed, remove and add sequence.
- Numbers, booleans, `NaN` and objects as ids or field values are not modelled. A falsy data argument other than `null` or `undefined` (`false`, `0`, `""`) is not modelled either.
- A truthy data argument that is not an object is not modelled: `Data` is either nullish or a map of own properties. So the model cannot express `addItem("abc")` or `addItem(5)`, which pass the falsy test and store a record whose fields are all `undefined` and whose contacts are `[]`. It cannot express a seed element that is a string or a number, such as `new Menu(["a"])`, either. Nor can it express an `updates` argument that is a string, which `{ ...item, ..."ab" }` spreads as the properties `"0"` and `"1"`.
- Object identity and aliasing are not modelled, because values are immutable in the model. So the model cannot express a caller changing a stored record through a reference that a call returned. The code has these cases:
  - `getAllItems` copies the array with `slice()`, and `removeItem` copies it with `[...this.#items]`. The records in either result are the stored `MenuItem` objects, so `menu.getAllItems()[0].name = "X"` changes the stored record.
  - `addItem` stores the caller's own `contacts` array as the record's contacts (the destructuring and the assignment in the constructor). A later change to that array by the caller changes the stored record.
  - The shallow copies that `getItem`, `addItem` and `updateItem` return share the stored record's contacts array.
- `Menus.Menu.Create`: when the constructor throws, the partly built `Menu` is simply not returned.
