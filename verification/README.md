# Admin backoffice: CSV import, moderation selection and categories, in Dafny

This project models the client-side state logic and request validation of a
product-listing site's admin backoffice. Four pieces are covered:

- **CSV import screen** (`CsvImport`). A normaliser turns each parsed CSV
  row into a product draft. The `images` and `categories` cells are split on
  `;` and each piece is trimmed. `rank` passes through as raw text, or
  becomes 0 when it is missing or empty. `DraftEditor` is a class that holds
  the drafts and the pending list. Its methods edit one field, replace the
  images or the logo, toggle a category (at most 3), remove a category,
  remove a row, and bulk-import the drafts into the pending list.
- **Pending-products table** (`PendingProducts`). The table projects each
  product onto four columns. `Selection` is a class holding the selected ids
  and a separately stored "select all" flag. It supports toggling one id,
  select all / deselect all, and resetting both after a bulk activation
  succeeds.
- **Add-category card** (`AddCategory`). A guard rejects a blank name and a
  name that matches an existing one ignoring case. `CategoryForm` then
  appends the server's record, or leaves everything as it was.
- **`POST /api/categories`** (`CategoriesRoute`). A pure function decides
  the status code from the body's `name` and the store's answer.

`Strings` models `trim`, `split` and `toLowerCase` over ASCII. `Join` is the
inverse of `Split`. `Lists` models the two `filter` calls the handlers use.

The browser's network calls, the server actions and the database are inputs
to the model, not code in it:

- `DraftEditor.BulkImport(accepted)`: whether the import request came back ok.
- `Selection.BulkActivate(activated)`: whether `activateProductsBulk` returned without an error.
- `CategoryForm.Add(reply)`: what `addCategory` returned, or that it threw.
- `CategoriesRoute.Post(body, store)`: what `db.category.create` would answer.

Each method that uses one of these inputs also returns what it sent.

Four behaviours of the code are easy to misread, and the model follows the code:

- `rank` is not parsed as an integer. The raw cell text is kept, and only a missing or empty cell becomes 0.
- A draft's categories are a list, not a deduplicated set. The normaliser does not cap them at three (`NormaliseMayExceedCap`). Only a toggle respects the cap.
- The "select all" flag is stored, not derived from the selection. Toggling one id never changes it.
- A successful bulk activation clears the selection but does not remove the activated rows from the table.

## Model

| member | source | states |
|---|---|---|
| `CsvImport.Normalise` | app/admin/csv-import.tsx:54-67 | the nine plain columns are copied through (`undefined` when the column is missing), `images`/`categories` come from the list-column rule and `rank` from the rank rule |
| `CsvImport.Cell` | app/admin/csv-import.tsx:55-63 | a copied column is `undefined` exactly when the row lacks that header; a present header gives exactly the cell's text |
| `CsvImport.ListColumn` | app/admin/csv-import.tsx:64-65 | a missing or empty cell gives `[]` (never null); a non-empty one gives one element per `;`-piece (separators + 1), each free of `;` and of whitespace at either end |
| `CsvImport.TrimEach` | app/admin/csv-import.tsx:64 | one trimmed piece per input piece, same order |
| `CsvImport.ListColumnPieces` | app/admin/csv-import.tsx:64-65 | the untrimmed pieces re-join to the cell, and element k is piece k trimmed, so pieces keep source order and empty pieces stay as `""` |
| `CsvImport.NormaliseCategoriesExample` | app/admin/csv-import.tsx:65 | `"A;B;C"` gives `["A","B","C"]`; `""` and a missing column give `[]` |
| `CsvImport.NormaliseMayExceedCap` | app/admin/csv-import.tsx:65 | a four-name cell yields more than three categories: the cap is not a normaliser invariant |
| `CsvImport.RankOf` | app/admin/csv-import.tsx:66 | rank is the number 0 exactly when the cell is missing or empty, otherwise the raw cell text unparsed |
| `CsvImport.NormaliseAll` | app/admin/csv-import.tsx:54 | one draft per parsed row, in row order |
| `CsvImport.With` | app/admin/csv-import.tsx:78 | the named field takes the new value; every other scalar field, the images and the categories are unchanged |
| `CsvImport.EditTouchesOneField` | app/admin/csv-import.tsx:76-94 | an edit at `index` leaves the length, every other draft and every other field of the edited draft unchanged |
| `CsvImport.Toggled` | app/admin/csv-import.tsx:99-109 | `c` ends up present exactly when it was absent and there was room; a present `c` is removed with all copies; an absent one is appended below 3 entries; a full list is unchanged; the result never exceeds both 3 and the old length |
| `CsvImport.ToggleKeepsCap` | app/admin/csv-import.tsx:105-109 | a list of at most three categories still has at most three after a toggle |
| `CsvImport.ToggleTwice` | app/admin/csv-import.tsx:101-106 | toggling an absent name twice, with room for it, restores the list |
| `CsvImport.OptionDisabled` | app/admin/csv-import.tsx:267 | a picker option is disabled exactly when choosing it would hit the three-category limit |
| `CsvImport.ToggleOutcomeOf` | app/admin/csv-import.tsx:101-109 | removal exactly when the name is present; append exactly when it is absent and fewer than three are listed; the limit warning exactly when it is absent and three or more are listed |
| `CsvImport.ToggleTwicePresentMoves` | app/admin/csv-import.tsx:101-106 | toggling a present name twice is not an identity: `["a","b"]` becomes `["b","a"]` |
| `CsvImport.RemoveRowShifts` | app/admin/csv-import.tsx:124-127 | after removing row i, position i holds the old row i+1 |
| `CsvImport.DraftEditor.constructor` | app/admin/csv-import.tsx:41-42 | no drafts; the pending list is the initial one |
| `CsvImport.DraftEditor.Load` | app/admin/csv-import.tsx:52-69 | the drafts become the normalised rows; the pending list is unchanged |
| `CsvImport.DraftEditor.EditField` | app/admin/csv-import.tsx:76-80 | with `index` in range only that draft's field changes to the typed text; out of range (the handler throws) nothing changes |
| `CsvImport.DraftEditor.SetImages` | app/admin/csv-import.tsx:83-87 | only the images of the draft at `index` are replaced by the uploaded URLs |
| `CsvImport.DraftEditor.SetLogo` | app/admin/csv-import.tsx:90-94 | only the logo of the draft at `index` is replaced by the uploaded URL |
| `CsvImport.DraftEditor.ToggleCategory` | app/admin/csv-import.tsx:97-112 | only the categories of the draft at `index` change, to the toggled list; the limit warning is raised exactly when the list was full and lacked the name |
| `CsvImport.DraftEditor.RemoveCategory` | app/admin/csv-import.tsx:115-121 | only the categories of the draft at `index` change: every copy of the name is removed |
| `CsvImport.DraftEditor.RemoveRow` | app/admin/csv-import.tsx:124-127 | the drafts lose the one at `index` (later ones shift down); an out-of-range index changes nothing |
| `CsvImport.DraftEditor.BulkImport` | app/admin/csv-import.tsx:130-158 | on an ok response pending becomes old pending followed by the drafts and the drafts empty; otherwise both are unchanged |
| `Lists.RemoveAll` | app/admin/csv-import.tsx:102-104 | the value is gone, every other element is kept with its multiplicity, nothing new appears, and an absent value changes nothing |
| `Lists.RemoveAllAppend` | app/admin/csv-import.tsx:117-119 | filtering distributes over concatenation, so the kept elements keep their relative order |
| `Lists.RemoveAllSingleton` | app/admin/pending-products.tsx:79 | a one-element list is kept exactly when its element differs from the removed value |
| `Lists.RemoveIndex` | app/admin/csv-import.tsx:125 | in range: the length drops by one, earlier elements stay, later ones move down one place; out of range: unchanged |
| `Strings.LeadingSpace` | app/api/categories/route.ts:15 | the length of the whitespace run that opens the string, followed by a non-whitespace character or the end |
| `Strings.TrailingSpace` | app/api/categories/route.ts:15 | the length of the whitespace run that closes the string, preceded by a non-whitespace character or the start |
| `Strings.Trim` | app/api/categories/route.ts:7 | the infix after the leading whitespace, with only whitespace after it; empty exactly when the input is all whitespace, otherwise no whitespace at either end |
| `Strings.TrimOnlyDrops` | app/admin/csv-import.tsx:64 | trimming introduces no character, so trimmed pieces stay free of `;` |
| `Strings.TrimFixed` | app/api/categories/route.ts:15 | a string with no whitespace at either end is its own trim |
| `Strings.TrimIdempotent` | app/api/categories/route.ts:15 | trimming twice is trimming once |
| `Strings.LowerChar` | app/admin/add-category.tsx:27 | ASCII capitals map to the letter 32 code points higher; every other character is kept |
| `Strings.ToLower` | app/admin/add-category.tsx:27 | same length, each character lowered |
| `Strings.ToLowerIdempotent` | app/admin/add-category.tsx:27 | lowering twice is lowering once |
| `Strings.Split` | app/admin/csv-import.tsx:64 | at least one piece, none containing the separator |
| `Strings.SplitLength` | app/admin/csv-import.tsx:64 | the number of pieces is the number of separators plus one |
| `Strings.JoinSplit` | app/admin/csv-import.tsx:64 | joining the pieces of a split gives back the original string |
| `Strings.SplitJoin` | app/admin/csv-import.tsx:65 | splitting a join of separator-free pieces gives back the pieces |
| `PendingProducts.Project` | app/admin/pending-products.tsx:45-59 | same length and order as the products, each row keeping exactly id, name, description and logo |
| `PendingProducts.Ids` | app/admin/pending-products.tsx:88 | the visible ids in display order |
| `PendingProducts.ToggleId` | app/admin/pending-products.tsx:76-82 | a selected id is filtered out with the other ids kept in order; an unselected id is appended at the end; so only that id's checked state flips, every other id keeps its state, and a duplicate-free selection stays duplicate-free |
| `PendingProducts.RemoveAllKeepsDistinct` | app/admin/pending-products.tsx:79 | deselecting keeps a duplicate-free selection duplicate-free |
| `PendingProducts.ToggleIdTwice` | app/admin/pending-products.tsx:76-82 | selecting an unselected id and toggling it again restores the selection |
| `PendingProducts.SelectAllTicksEveryRow` | app/admin/pending-products.tsx:142 | after select-all every visible row shows checked, and the bulk-activate button is offered when a row exists |
| `PendingProducts.Checked` | app/admin/pending-products.tsx:142 | a row's checkbox is ticked exactly when its id occurs at some position of the selection |
| `PendingProducts.BulkActivateOffered` | app/admin/pending-products.tsx:108 | the bulk-activate button is shown exactly when some row is checked |
| `PendingProducts.Selection.constructor` | app/admin/pending-products.tsx:42-43 | empty selection, flag clear |
| `PendingProducts.Selection.SelectProduct` | app/admin/pending-products.tsx:76-82 | the selection is toggled for that id; the select-all flag is unchanged |
| `PendingProducts.Selection.SelectAll` | app/admin/pending-products.tsx:84-92 | flag clear: the selection becomes all visible ids in order; flag set: it empties; the flag is negated |
| `PendingProducts.Selection.BulkActivate` | app/admin/pending-products.tsx:94-103 | on success the selection is empty and the flag clear; on failure both are unchanged |
| `AddCategory.NameTaken` | app/admin/add-category.tsx:27 | an existing category with exactly the input as its name always counts as taken |
| `AddCategory.NameTakenIgnoresCase` | app/admin/add-category.tsx:27 | the duplicate test gives the same answer for the input and its lower-cased form |
| `AddCategory.Accepts` | app/admin/add-category.tsx:27 | the guard passes exactly when the input is not all whitespace and its name is not taken |
| `AddCategory.AcceptsExactly` | app/admin/add-category.tsx:27 | the guard passes exactly when the name has a non-whitespace character and matches no existing name after lower-casing |
| `AddCategory.AddKeepsCaseDistinct` | app/admin/add-category.tsx:27-31 | adding a name that passed the guard keeps the list free of case-insensitive duplicates, when the server stores the input as sent |
| `AddCategory.PaddedNamePassesGuard` | app/admin/add-category.tsx:27 | the duplicate test uses the untrimmed input: `" Books"` passes beside `"Books"` |
| `AddCategory.CategoryForm.constructor` | app/admin/add-category.tsx:22-23 | the initial categories and an empty input |
| `AddCategory.CategoryForm.Type` | app/admin/add-category.tsx:52 | the input becomes the typed text; the list is unchanged |
| `AddCategory.CategoryForm.Add` | app/admin/add-category.tsx:26-41 | rejected (nothing sent, nothing changed) exactly when the guard fails; otherwise the untrimmed input is sent; a created record is appended and the input cleared; a server error changes nothing |
| `CategoriesRoute.Post` | app/api/categories/route.ts:4-24 | 400 exactly for a missing, empty or whitespace-only name, and the store is then not called; a string name otherwise goes to the store trimmed; store success gives 201 with the record; store failure gives 500 with a generic message; a malformed or `null` body, or a truthy non-string name, throws; a non-object JSON body has no `name` and gets 400 |
| `CategoriesRoute.Blank` | app/api/categories/route.ts:7 | a name is blank exactly when `!name` holds or the string trims to `""` |
| `CategoriesRoute.StoredNameTrimmed` | app/api/categories/route.ts:13-16 | the stored name is non-empty, has no whitespace at either end and is its own trim |
| `CategoriesRoute.StoreUnusedWhenNotCalled` | app/api/categories/route.ts:7-8 | when the store is not called its answer does not affect the reply |
| `CategoriesRoute.SpacesOnlyRejected` | app/api/categories/route.ts:7-8 | `{name: "  "}` gets 400 and creates nothing, whatever the store would answer |

## Left out

- CSV tokenising is done by the `papaparse` library, which is not part of this model. The model starts from the parsed rows (header to cell text). The `loading` flag set around parsing is not modelled.
- `fetch`, the server actions (`activateProductsBulk`, `addCategory`) and `db.category.create` are not part of this model. Each is an outcome given as input.
- `app/api/products/import/route.ts` runs a concurrent fan-out over `createProduct`, which is not part of this model. It is left out. It has no array check: a non-array `products` throws inside the `try` and gets 500.
- `app/admin/active-products.tsx` only renders, and its delete handler updates nothing persistent. It is left out.
- Alerts, toasts, modals, uploader widgets, `useTransition` pending state and all markup are left out. The category-limit alert appears only as the `limit` result of `DraftEditor.ToggleCategory`.
- `Strings.Trim` and `Strings.ToLower` use ASCII only. `trim` in JavaScript also removes Unicode spaces, and `toLowerCase` lowers every cased letter. Both are left out.
- `CsvImport.DraftEditor.BulkImport` treats the request and its answer as one step. Edits made while the request is in flight would be dropped by the source when the draft list is cleared. That interleaving is not modelled.
- `AddCategory.CategoryForm.Add` treats the request and its answer as one step. While the request is pending the input box stays enabled, and text typed then is wiped when the input is cleared on success. That interleaving is not modelled.
- Drafts are values. The source's handlers copy the array shallowly and then assign into the shared draft object. Since no earlier copy of the array is kept, that aliasing is not observable and is not modelled.
- `CsvImport.DraftEditor.EditField` covers all ten scalar fields of a draft, while the table edits six of them (name, slug, headline, description, rank, releaseDate). The source accepts any property name, and names outside the draft shape are not modelled.
- `PendingProducts.Product` is a separate record from the CSV drafts. Drafts appended after a bulk import carry no `id` in the source, and that case is not modelled. A missing `pendingProducts` list (`?.map` on `undefined`) is not modelled.
- `CategoriesRoute.Post` reports an exception that leaves the handler as `Thrown`. The framework's own answer to it is not modelled.
