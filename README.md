# E-commerce admin: a verified model of the server routes and the admin client

This project models the core of a small e-commerce back office. There are
two sides:

- **Server** (Express and MongoDB): product routes with image upload, the
  admin gate put in front of the admin routes, order routes and user routes.
- **Admin client** (React): the add-product, edit-product and gallery forms,
  the global session slice and the application shell.

The model is written in Dafny and proves properties of that model.

Server side:

- Product images are accepted by MIME type.
- Each image is stored under a `.webp` name derived from the client's file
  name and the upload time.
- An image is addressed by a public URL, and that URL is turned back into
  the file to delete.
- The product handlers check their inputs in a fixed order. They record
  every file write and unlink they issue in a log, and keep the product
  store as a map.
- The admin gate parses the `Authorization` header against the
  `Bearer <token>` syntax of section 2.1 of RFC 6750. It is stricter:
  exactly one space, and the scheme is case-sensitive. It then picks one of
  five outcomes.
- An order is valued as the sum of price times quantity, in minor units.
- The orders store supports status update and deletion. Total sales and a
  user's order list, newest first, are computed over it.
- Users store only a password hash. An update keeps the old hash when no
  password is given.
- Login issues a token whose expiry (a NumericDate, section 4.1.4 of RFC
  7519) is sixty seconds after its issue second.

Client side:

- **Forms.** Validation fills an error object field by field, using
  number tests and a test for required fields. The add form's test is
  JavaScript truthiness. The edit form's test is the
  intended one, under which a number counts as filled (see Left out and
  Findings). The multipart payloads are built
  key by key. The gallery editor has its five-image bound, its removal
  selection and its save guard.
- **Session.** The four session setters (user id, token, admin flag and
  expiry) mirror their value into local storage; the colour mode is not stored.
- **Shell.** It provides logout, the periodic expiry check, start-up
  authentication and the route guards.

Outside effects are parameters:

- **Clock.** Milliseconds since the epoch.
- **bcrypt** hashing and comparison, **jsonwebtoken** signing and
  verification, and the **sharp** encoder (one step that either writes the
  file or throws). These are function parameters.
- **Client requests.** Each one is a `succeeded` flag or the server's reply.

An Express 4 async handler that throws never answers. This is `NoReply`.

Layout, one module per file:

- `Wrappers`: `Option`, `Reply`, `Notice`.
- `Strings`: the JavaScript string built-ins used.
- `Uploads` and `Products`: `server/routers/products.js`.
- `AdminGate`: `server/helpers/isAdmin.js`.
- `Orders`: `server/routers/orders.js`.
- `Users`: `server/routers/users.js`.
- `ProductForm`: the shared form rules, used by `AddProduct` and `EditProduct`.
- `AddGallery`.
- `Session`: `client/src/state/index.js`.
- `App`: `client/src/App.js`.

Code that updates state in place is a class with `modifies` clauses:

- the product, order and user stores;
- the three forms;
- the session slice;
- the shell.

The loops of the source keep their loops:

- the gallery writes;
- order item creation and removal;
- the payload builders.

## Model

| member | source | states |
|---|---|---|
| Strings.Split | server/routers/products.js:66 | `split` on one character yields at least one part and no part contains the separator |
| Strings.ReplaceChar | server/routers/products.js:66 | every occurrence of one character is replaced, everything else kept, length unchanged |
| Strings.JoinCons | server/routers/products.js:66 | joining a part in front adds the part and one separator |
| Strings.JoinSplitIsReplace | server/routers/products.js:66 | `split(" ").join("-")` replaces every space by a dash |
| Strings.JoinSplit | server/routers/products.js:66 | joining a split with the same separator gives the string back |
| Strings.SplitWithoutSep | server/routers/products.js:66 | a string without the separator splits into itself alone |
| Strings.SplitAtFirstSep | server/helpers/isAdmin.js:9-15 | a separator-free first part followed by the separator splits off as the first part, and the rest splits on its own |
| Strings.SplitHead | server/routers/products.js:66 | the first part of a split is the prefix up to the first separator |
| Strings.SplitLast | client/src/scenes/edit-product/index.jsx:93 | the last part of a split is the suffix after the last separator, or the whole string |
| Strings.IndexOfFrom | server/routers/products.js:118 | the result is the first occurrence at or after the start, and `None` means there is none |
| Strings.ReplacePrefix | server/routers/products.js:118 | `replace` of a string's own prefix by "" gives back the rest |
| Strings.TrimStart | client/src/scenes/edit-product/index.jsx:101 | the result is a suffix, starts with a non-space and only spaces were dropped |
| Strings.TrimEnd | client/src/scenes/edit-product/index.jsx:101 | the result is a prefix, ends with a non-space and only spaces were dropped |
| Strings.Trim | client/src/scenes/edit-product/index.jsx:101 | a non-empty trimmed text neither starts nor ends with white space |
| Strings.TrimIdempotent | client/src/scenes/edit-product/index.jsx:101 | trimming twice is trimming once |
| Strings.DigitChar | server/routers/products.js:68 | a digit below ten renders as a decimal digit character |
| Strings.DigitValue | client/src/App.js:49 | a digit character reads as a value below ten |
| Strings.DigitRoundTrip | client/src/App.js:49 | reading a rendered digit gives the digit back |
| Strings.NatToDecimal | server/routers/products.js:68 | the rendering of a timestamp is a non-empty run of digits without a leading zero |
| Strings.DecimalValue | server/routers/products.js:68 | the numeral of `n` reads back as `n` |
| Strings.DigitRun | client/src/App.js:49 | the longest digit prefix: all digits, and stopped by a non-digit or the end |
| Strings.ParseIntDecimal | client/src/App.js:49 | `parseInt(String(n), 10) == n` for every non-negative `n` |
| Strings.ParseIntNegative | client/src/App.js:49 | `parseInt` of `-` followed by the numeral of `n` reads back as `-n` |
| Strings.AllDigitsRun | client/src/App.js:49 | an all-digit text is read to its end |
| Uploads.FileFilterAsWritten | server/routers/products.js:11-25 | as written, the filter accepts everything the intended filter accepts, and beyond it exactly the names inherited from Object.prototype |
| Uploads.PrototypeKeyAccepted | server/routers/products.js:19-24 | the type `constructor` passes the filter as written but not the intended one |
| Uploads.FileFilter | server/routers/products.js:11-25 | a part is accepted iff its type is exactly image/png, image/jpeg or image/jpg |
| Uploads.StemShape | server/routers/products.js:66 | the stem holds no space and no dot, is no longer than the client's name, and is that name up to its first dot with spaces made dashes |
| Uploads.WebpNameShape | server/routers/products.js:66-68 | a stored name ends in `.webp`, holds no space, its first dot starts the extension, and it holds a slash only if the client's name did |
| Uploads.BasePath | server/routers/products.js:67 | the public base address ends with `public/uploads/` |
| Uploads.UnlinkRoundTrip | server/routers/products.js:113-119 | stripping the base path from an address built under it gives `public/uploads/<name>`, the file that was written |
| Uploads.UnlinkForeignAddress | server/routers/products.js:118-119 | an address built under another base path is unlinked as the whole address below `public/uploads/` |
| Products.NewProduct | server/routers/products.js:76-88 | the created record carries every body field (name, descriptions, brand, price, category, stock count, rating, review count, featured flag), the saved image address and an empty gallery |
| Products.Updated | server/routers/products.js:134-148 | an update replaces every body field and the image and keeps the gallery |
| Products.CreateRejection | server/routers/products.js:59-64 | create answers 500 for a refused type, then 400 "Invalid Category" even with no file, then 400 "No image in the request"; it goes on iff all three pass |
| Products.UpdateRejection | server/routers/products.js:98-104 | update answers 500 for a refused type, then 400 "Invalid Product Id" before the category is looked at, then 400 "Invalid Category"; it goes on iff all pass |
| Products.GalleryAddresses | server/routers/products.js:227-238 | one address per uploaded file, in upload order |
| Products.AddressesFirstSnoc | server/routers/products.js:227-236 | collecting one more file's address appends that address |
| Products.AddressesFirstAll | server/routers/products.js:227-238 | the addresses collected for all the files are the saved gallery |
| Products.UnlinkAll | server/routers/products.js:216-224 | one unlink per old gallery entry, in order, each at the entry with the base path stripped |
| Products.WriteFirst | server/routers/products.js:227-235 | the writes issued for the first `k` files, in order, at their stored names |
| Products.WriteFirstSnoc | server/routers/products.js:227-235 | writing one more file appends its write at its stored name |
| Products.EncodedPrefix | server/routers/products.js:232-235 | the files the encoder gets through before its first throw: all accepted, and the next one refused |
| Products.EncodedPrefixAt | server/routers/products.js:232-235 | the prefix ends exactly at the first file the encoder throws on |
| Products.GalleryReplacementBounded | server/routers/products.js:227-238 | a replacement saves at most five addresses, each mapped back on unlink to the file written for it (the five-file bound is line 203) |
| Products.StoredAddressShape | server/routers/products.js:66-68 | the address saved for a file ends in `.webp` and is unlinked as the file written for it (the unlink is lines 113-119) |
| Products.AddressShape | server/routers/products.js:117-119 | any address built from a `.webp` name ends in `.webp` and is unlinked as that name |
| Products.NextReplacementUnlinksWritten | server/routers/products.js:216-238 | the next gallery replacement unlinks exactly the files this one wrote, in the same order |
| Products.Catalog.constructor | server/routers/products.js:76-90 | an empty store with the given categories and no file operation |
| Products.Catalog.Create | server/routers/products.js:59-95 | refusals change nothing; an encoder throw leaves the store unchanged and gives no answer; otherwise one write at the stored name and a new record with its address |
| Products.Catalog.Update | server/routers/products.js:98-156 | refusals change nothing; without a file the image becomes the body's `image`; with a file the old image's unlink is logged before the write and the record takes the new address |
| Products.Catalog.Delete | server/routers/products.js:159-175 | 200 "the product is deleted!" and the record removed when it existed, 404 "product not found!" otherwise |
| Products.Catalog.UpdateGallery | server/routers/products.js:200-254 | a refused type answers 500 and an unknown product 400, both changing nothing; otherwise every old entry is unlinked, the files are written in order, and the gallery becomes exactly their addresses (on an encoder throw the writes so far stay and the record is unchanged) |
| Products.Catalog.UnlinkGallery | server/routers/products.js:216-224 | one unlink per old gallery entry is logged, in order, and nothing else changes |
| Products.Catalog.WriteGallery | server/routers/products.js:226-238 | the writes logged are those of the files the encoder gets through; the addresses come back iff every file was encoded, and they are the saved gallery |
| AdminGate.BearerSplit | server/helpers/isAdmin.js:9-15 | the header splits on " " into exactly two parts with `Bearer` first iff it is `Bearer`, one space, then a token without spaces; the second part is that token |
| AdminGate.Check | server/helpers/isAdmin.js:3-26 | exactly one of five outcomes: no header; bad format; the verifier throws; the claims are not admin; or next with the verified claims |
| AdminGate.Response | server/helpers/isAdmin.js:4-25 | next runs the handler iff the outcome is next; no token and bad format answer 401, an invalid token 400, a non-admin 403 |
| AdminGate.MalformedNotVerified | server/helpers/isAdmin.js:9-18 | an absent or malformed header gets the same 401 whatever the verifier does |
| AdminGate.DoubleSpaceRefused | server/helpers/isAdmin.js:9-13 | `Bearer  x` (two spaces) is a bad format |
| AdminGate.LowerCaseSchemeRefused | server/helpers/isAdmin.js:10 | `bearer x` is a bad format, unlike the case-insensitive scheme of section 2.1 of RFC 7235 |
| Orders.LineTotals | server/routers/orders.js:51-55 | per-item price times quantity, in item order; defined iff every item's product exists |
| Orders.SumCons | server/routers/orders.js:57 | the reduce from zero adds the first element to the sum of the rest |
| Orders.OrderTotalIsValuation | server/routers/orders.js:51-57 | the total is defined iff every product exists, then equals the sum of price times quantity; no items total 0 |
| Orders.ValuationNonNegative | server/routers/orders.js:51-57 | non-negative prices and quantities give a non-negative total |
| Orders.ItemsOf | server/routers/orders.js:39-48 | one saved item per requested line, in request order, with its quantity and product |
| Orders.NewOrder | server/routers/orders.js:59-70 | the saved order holds the item ids, the computed total, the creation time, the request's user and status, and its whole address: both lines, city, zip, country and phone |
| Orders.IndexOfId | server/routers/orders.js:80 | finds the order with that id, and `None` iff there is none (the same lookup is line 95) |
| Orders.TotalSalesEmptyThrows | server/routers/orders.js:116-124 | with no order, the route as written throws, while the intended total is 0 |
| Orders.TotalSales | server/routers/orders.js:116-124 | for a non-empty collection it agrees with the route as written; non-negative totals give non-negative sales |
| Orders.SumTotalsNonNegative | server/routers/orders.js:118 | a sum of non-negative totals is non-negative |
| Orders.TotalSalesAppend | server/routers/orders.js:116-124 | saving an order adds its total to the sales (the save is lines 59-71) |
| Orders.SumTotalsAppend | server/routers/orders.js:118 | the grouped sum of an appended order adds its total |
| Orders.TotalSalesRemove | server/routers/orders.js:116-124 | deleting an order removes its total from the sales (the delete is lines 94-103) |
| Orders.SumTotalsRemove | server/routers/orders.js:118 | the grouped sum without one order lacks exactly its total |
| Orders.OrdersOf | server/routers/orders.js:141 | exactly the orders of that user, each as often as stored, and no other |
| Orders.InsertByDateElements | server/routers/orders.js:145 | inserting adds exactly the one order |
| Orders.InsertByDateSorted | server/routers/orders.js:145 | inserting keeps a newest-first list newest first |
| Orders.SortNewestFirstCorrect | server/routers/orders.js:145 | the sort is a newest-first permutation of its input |
| Orders.UserOrders | server/routers/orders.js:140-151 | the answer is newest first and holds each of the user's orders as often as stored, and no other order |
| Orders.OrderStore.constructor | server/routers/orders.js:38-76 | an empty order and item store |
| Orders.OrderStore.Create | server/routers/orders.js:38-76 | one item saved per line under the given ids and earlier items kept; with every product present the order is appended with the valuation as its total and answered 200, otherwise nothing is answered |
| Orders.OrderStore.SaveItems | server/routers/orders.js:39-48 | each line is saved as an item under its own fresh id, with its quantity and product; earlier items are kept |
| Orders.OrderStore.UpdateStatus | server/routers/orders.js:79-91 | only that order's status changes; 404 "the order cannot be updated!" and no change when it is absent |
| Orders.OrderStore.Delete | server/routers/orders.js:94-113 | the order and each of its items removed with 200 "the order is deleted!"; 404 "order not found!" and no change when absent |
| Users.PublicView | server/routers/users.js:10 | the sent record keeps every field but the hash: id, name, email, phone, admin flag and the five address fields |
| Users.PublicViewHidesHash | server/routers/users.js:10 | what is sent does not depend on the stored hash (also line 20) |
| Users.Record | server/routers/users.js:32-43 | the saved record carries the assigned id, the given hash (not the password) and every other field of the body |
| Users.UpdatedHash | server/routers/users.js:55-61 | a supplied password is hashed afresh; otherwise the stored hash is kept; nothing is defined iff neither exists (used at line 68) |
| Users.FirstWhere | server/routers/users.js:87 | the first record that matches, and `None` iff none does |
| Users.FindById | server/routers/users.js:20 | the record with that id, and `None` iff there is none (also lines 55 and 133) |
| Users.FindByEmail | server/routers/users.js:87 | the first record with that email, and `None` iff there is none |
| Users.IssueClaims | server/routers/users.js:95-102 | the token names the user's id and role, was issued in the current second, and expires sixty seconds later |
| Users.Login | server/routers/users.js:86-108 | "user not found" iff no record has the email; for a known email, no answer iff the body holds no string password (the comparison throws); "wrong password" iff a given password does not match the hash; otherwise the email and the signed claims of that user |
| Users.LoginStatus | server/routers/users.js:91-106 | 200 iff logged in, nothing sent iff the comparison threw, 400 otherwise |
| Users.LoginTokenBelongsToUser | server/routers/users.js:94-104 | a login token is the signature of the claims of a user with that email whose hash matches the password |
| Users.VerifyToken | server/routers/users.js:162-177 | missing iff no or empty token; invalid iff verification throws; otherwise the decoded id and role |
| Users.VerifyStatus | server/routers/users.js:165-176 | 200 iff the token is valid, 400 otherwise |
| Users.GetById | server/routers/users.js:19-28 | 500 "The user with the given ID was not found." when absent, otherwise 200 with the public view of the record found by that id |
| Users.ListUsers | server/routers/users.js:9-16 | every record without its hash, in collection order |
| Users.UserStore.constructor | server/routers/users.js:31-51 | an empty user store |
| Users.UserStore.Create | server/routers/users.js:31-51 | with no password the hasher throws and nothing changes; otherwise a record holding the password's hash is appended and answered 200 (register, lines 111-129, has the same body) |
| Users.UserStore.Update | server/routers/users.js:54-83 | the record at that id takes the body's fields and the hash of the password rule; a missing id answers 400 with a password and nothing without one |
| Users.UserStore.Delete | server/routers/users.js:132-148 | 200 "the user is deleted!" and the record removed when it existed, 404 "user not found!" otherwise |
| ProductForm.Data.Set | client/src/scenes/add-product/index.jsx:52 | the spread with one computed key changes that field only |
| ProductForm.Fraction | client/src/scenes/add-product/index.jsx:74 | the fraction is a suffix of the text; for a decimal literal it is all digits, preceded by the point when non-empty, and empty when there is no point |
| ProductForm.Errors | client/src/scenes/add-product/index.jsx:65-75 | only checked fields get a message |
| ProductForm.ErrorsSnoc | client/src/scenes/add-product/index.jsx:66-74 | checking one more field runs its rule on the object built so far |
| ProductForm.ErrorsByField | client/src/scenes/add-product/index.jsx:66-74 | a field has a message iff it is checked and its rule fires, and the message is the rule's |
| ProductForm.ErrorsMessages | client/src/scenes/add-product/index.jsx:66-74 | each empty checked field gets "… is required"; a filled price "Price must be a number" iff it is not a number; a filled stock count "Stock count must be an integer" iff it is not whole; nothing else |
| ProductForm.ValidIff | client/src/scenes/add-product/index.jsx:76-77 | the error object is empty iff every checked field is filled, the price is a number and the stock count whole |
| ProductForm.EditIsAddWithoutImage | client/src/scenes/edit-product/index.jsx:115-131 | the edit rules are the add rules without the image requirement |
| ProductForm.BlankIsFalsyWithoutNumbers | client/src/scenes/add-product/index.jsx:66-74 | on a form of text only, the falsiness test and the blank test give the same errors |
| ProductForm.TrimKeeps | client/src/scenes/add-product/index.jsx:69 | trimming keeps every non-space character |
| ProductForm.DecimalLiteralChars | client/src/scenes/add-product/index.jsx:69 | a decimal literal holds only digits, signs and a point |
| ProductForm.ForeignCharIsNaN | client/src/scenes/add-product/index.jsx:69 | a text holding a letter or any other foreign character is not a number |
| ProductForm.TrimUnspaced | client/src/scenes/edit-product/index.jsx:101 | text without surrounding white space is its own trim |
| ProductForm.DecimalIsInteger | client/src/scenes/add-product/index.jsx:74 | a count typed as a decimal numeral is a whole number |
| ProductForm.KeysOf | client/src/scenes/add-product/index.jsx:84-86 | the keys of a payload, one per entry, in order |
| ProductForm.EntriesOf | client/src/scenes/edit-product/index.jsx:140-144 | a key is sent iff it is listed and not skipped, each with the field's value |
| ProductForm.EntriesWithoutSkip | client/src/scenes/add-product/index.jsx:84-86 | with nothing skipped every key is sent once, in order |
| ProductForm.EntriesOfSnoc | client/src/scenes/edit-product/index.jsx:140-144 | one more key adds its entry at the end unless it is skipped |
| ProductForm.CollectEntries | client/src/scenes/edit-product/index.jsx:140-144 | the key-by-key loop appends exactly the entries of the unskipped keys, in key order |
| AddProduct.PayloadHasEveryKey | client/src/scenes/add-product/index.jsx:84-86 | the payload names every key of the form object once, in declaration order (the keys are declared at lines 36-45) |
| AddProduct.AddErrorsInOrder | client/src/scenes/add-product/index.jsx:65-75 | the statement-by-statement error object is the rule fold over the checked fields |
| AddProduct.AddProductForm.constructor | client/src/scenes/add-product/index.jsx:36-48 | the empty form, no errors, no file name |
| AddProduct.AddProductForm.InputChange | client/src/scenes/add-product/index.jsx:50-54 | only the named field changes, to the typed text, and only its error is blanked |
| AddProduct.AddProductForm.ImageChange | client/src/scenes/add-product/index.jsx:56-63 | a chosen file sets the image, the shown name and blanks the image error; no file changes nothing |
| AddProduct.AddProductForm.Validate | client/src/scenes/add-product/index.jsx:65-78 | the stored errors are the add rules' errors, and the result is true iff there are none |
| AddProduct.AddProductForm.AddProduct | client/src/scenes/add-product/index.jsx:80-105 | nothing is sent unless valid; the payload is every key in order; success resets the form and file name |
| EditProduct.LoadedData | client/src/scenes/edit-product/index.jsx:80-92 | the loaded form has no new file, keeps the stored address apart and holds the numbers as numbers |
| EditProduct.LastSegment | client/src/scenes/edit-product/index.jsx:93 | the last segment is a slash-free suffix, preceded by a slash when there is one |
| EditProduct.SelectedFileName | client/src/scenes/edit-product/index.jsx:93 | empty for no image, otherwise a slash-free suffix of the address |
| EditProduct.StoredImageFileName | client/src/scenes/edit-product/index.jsx:93 | for an image this server stored, the name shown is the stored `.webp` name |
| EditProduct.KeyOrderHasEveryField | client/src/scenes/edit-product/index.jsx:56-66 | every field is a key of the form object |
| EditProduct.Payload | client/src/scenes/edit-product/index.jsx:136-144 | `image` is sent iff a file was chosen, the current address never, every other field always, each with its value |
| EditProduct.PayloadParts | client/src/scenes/edit-product/index.jsx:136-144 | the payload is the optional file entry followed by the other fields in key order |
| EditProduct.BuildPayload | client/src/scenes/edit-product/index.jsx:136-144 | the body built statement by statement is the payload above |
| EditProduct.EditErrorsInOrder | client/src/scenes/edit-product/index.jsx:115-128 | the statement-by-statement error object is the rule fold over the checked fields |
| EditProduct.LoadedZeroStockRefused | client/src/scenes/edit-product/index.jsx:124-125 | as written, a loaded product with stock 0 gets "Stock count is required" |
| EditProduct.LoadedNumbersFilled | client/src/scenes/edit-product/index.jsx:119-127 | with the intended required test, a loaded price and stock count never get an error |
| EditProduct.EditProductForm.constructor | client/src/scenes/edit-product/index.jsx:56-73 | the empty form before loading |
| EditProduct.EditProductForm.Load | client/src/scenes/edit-product/index.jsx:80-95 | the form takes the loaded values and the shown file name comes from the image address |
| EditProduct.EditProductForm.InputChange | client/src/scenes/edit-product/index.jsx:97-104 | every field but the category stores its trimmed text; only that field and its error change |
| EditProduct.EditProductForm.ImageChange | client/src/scenes/edit-product/index.jsx:106-113 | a chosen file sets the image, clears the current address and the image error; no file changes nothing |
| EditProduct.EditProductForm.Validate | client/src/scenes/edit-product/index.jsx:115-131 | the stored errors are the edit rules' errors (numbers count as filled), and the result is true iff there are none |
| EditProduct.EditProductForm.UpdateProduct | client/src/scenes/edit-product/index.jsx:133-161 | nothing is sent unless valid; then the payload above is sent and the notice reports the outcome |
| AddGallery.RemoveAt | client/src/scenes/add-gallery/index.jsx:154-156 | exactly the element at the index leaves; the others keep their order; an index out of range changes nothing |
| AddGallery.FilterOut | client/src/scenes/add-gallery/index.jsx:132 | an element stays iff it was there and is not excluded; no duplicates appear; with nothing to exclude the list is unchanged (also line 184) |
| AddGallery.FilterOutSnoc | client/src/scenes/add-gallery/index.jsx:132 | filtering keeps order and multiplicity: an element appended to the input is appended to the output unless it is excluded |
| AddGallery.FilterOutAppend | client/src/scenes/add-gallery/index.jsx:120-124 | deleting an element just added restores the selection |
| AddGallery.Toggled | client/src/scenes/add-gallery/index.jsx:118-128 | the toggle flips the image's membership and no other, keeping the selection a set |
| AddGallery.ToggleTwice | client/src/scenes/add-gallery/index.jsx:118-128 | toggling twice restores the set, and the exact sequence when the image was not selected |
| AddGallery.SaveDisabled | client/src/scenes/add-gallery/index.jsx:205-210 | the button is disabled iff nothing is picked, nothing is pending removal and the display does not outgrow a loaded product |
| AddGallery.SaveEnabledIffUploadGuard | client/src/scenes/add-gallery/index.jsx:205-210 | while the display does not outgrow the product, the button is enabled iff an upload passes its own guard (the upload guard is lines 161-167) |
| AddGallery.GalleryForm.constructor | client/src/scenes/add-gallery/index.jsx:41-50 | nothing picked or pending, the display is the product's images |
| AddGallery.GalleryForm.Load | client/src/scenes/add-gallery/index.jsx:56-58 | on (re)load the display follows the product's images |
| AddGallery.GalleryForm.ImageChange | client/src/scenes/add-gallery/index.jsx:136-152 | more than five in all is refused with the error and the picks unchanged; otherwise the files are appended in order, errors cleared, and the bound holds (the bound of five is line 35) |
| AddGallery.GalleryForm.RemoveImage | client/src/scenes/add-gallery/index.jsx:154-156 | the picks lose exactly the indexed file and the bound is kept |
| AddGallery.GalleryForm.ToggleSelect | client/src/scenes/add-gallery/index.jsx:118-128 | the selection is toggled and stays a set |
| AddGallery.GalleryForm.RemoveSelected | client/src/scenes/add-gallery/index.jsx:130-134 | the selection is appended to the pending removals, exactly those images leave the display, and the selection empties |
| AddGallery.GalleryForm.ImageUpload | client/src/scenes/add-gallery/index.jsx:158-193 | with nothing picked or pending there is no request and the error is set; otherwise the picks and removals are sent, and success empties both and drops the removed images from the display |
| AddGallery.GalleryForm.SaveButtonDisabled | client/src/scenes/add-gallery/index.jsx:205-210 | a disabled button means nothing picked and nothing pending |
| Session.StoredOr | client/src/state/index.js:5-8 | a key's stored text, or "" when nothing is stored |
| Session.BoolText | client/src/state/index.js:28 | the flag is stored as the text `true` or `false` |
| Session.IsAdminRoundTrip | client/src/state/index.js:26-29 | the stored admin flag reads back at start-up as the value stored (read back at line 7) |
| Session.ToggledMode | client/src/state/index.js:15-17 | the mode is always light or dark, and dark iff it was light |
| Session.ToggleTwice | client/src/state/index.js:15-17 | toggling twice restores light or dark |
| Session.GlobalState.constructor | client/src/state/index.js:3-9 | mode dark, admin iff the stored flag is exactly `true`, other fields their stored text or "" |
| Session.GlobalState.SetMode | client/src/state/index.js:15-17 | only the mode changes, by the toggle |
| Session.GlobalState.SetUserId | client/src/state/index.js:18-21 | only the user id changes, and it is stored |
| Session.GlobalState.SetToken | client/src/state/index.js:22-25 | only the token changes, and it is stored |
| Session.GlobalState.SetIsAdmin | client/src/state/index.js:26-29 | only the admin flag changes, and its JSON text is stored |
| Session.GlobalState.SetExpirationTime | client/src/state/index.js:30-33 | only the expiry changes, and it is stored |
| Session.GlobalState.RemoveItem | client/src/App.js:39-42 | only the key leaves storage |
| App.ClearedStorage | client/src/App.js:34-42 | setting the four session keys and then removing them leaves storage as it was without those keys |
| App.SecondsReached | client/src/App.js:50-51 | flooring to seconds and comparing agrees with comparing milliseconds |
| App.ExpiryAtNumericDate | client/src/App.js:49-51 | a stored decimal expiry is reached exactly at that many seconds since the epoch |
| App.NotANumberNeverExpires | client/src/App.js:49-51 | a stored expiry that is not a number never expires |
| App.ExpiryMonotone | client/src/App.js:50-51 | once reached, an expiry stays reached |
| App.IssuedTokenLifetime | client/src/App.js:49-51 | for a server-issued token the client logs out from the sixtieth second after the issue second: never within 59 s, always after 60 s |
| App.NumberText | client/src/App.js:75 | `String` of a parsed number reads back as that number, negative numbers included; NaN renders as `NaN` |
| App.StoredExpiryKept | client/src/App.js:75 | re-storing a parsed decimal expiry writes back the same text (the expiry is read at line 63) |
| App.Render | client/src/App.js:95-123 | loading until initialised; `/login` shows the login page iff not admin; unknown paths redirect by role; protected pages are guarded by "token set and admin"; each protected path shows its own page (the dashboard, the product list, the add form, the edit form or the gallery for the id in the path, and the index redirect) |
| App.ProtectedNeedsAdminToken | client/src/App.js:105-119 | every protected page is guarded, as authenticated iff the token is non-empty and the user is admin |
| App.LoggedOutScreens | client/src/App.js:101-123 | with the session cleared nothing is authenticated, `/login` shows the login page and other paths go to `/login` |
| App.AppContent.constructor | client/src/App.js:25-32 | not yet initialised, no navigation |
| App.AppContent.HandleLogout | client/src/App.js:34-44 | token, user id, admin flag and expiry cleared, the four keys removed, mode kept, navigation to `/login` |
| App.AppContent.CheckTokenExpiration | client/src/App.js:46-56 | logs out iff an expiry is stored and reached; otherwise nothing changes |
| App.AppContent.InitializeAuth | client/src/App.js:58-84 | acts only with a token and an expiry stored and not initialised; a reached expiry logs out without asking the server; a failed verification logs out; a valid one restores the session; always initialised |

## Left out

- Image decoding, resizing and WebP encoding are one oracle step, `encodes`: it writes the file or throws. File contents are not modelled.
- `fs.unlink` is fire-and-forget. Only the target path issued is modelled. A failed unlink never changes the answer.
- MongoDB is not modelled. Stores are maps or sequences; ids are parameters the store assigns; population and aggregation internals are left out.
- `Products.Catalog.UpdateGallery`: the bound of five files is a precondition. Enforcing it is multer's job.
- `Products.Catalog.UpdateGallery`: a request without a multipart body, where `req.files` is undefined, is not distinguished from an empty upload.
- `Products.Catalog.Update`: the body's `image` field is taken as a string.
- Order creation saves items with `Promise.all`, and deletion removes items without awaiting them. Both are modelled sequentially.
- `Orders.OrderStore.Create`: a rejected save is not modelled. It throws inside the async handler, so the route never answers; the `if (!order)` answer of 400 cannot be reached.
- Prices are integers in minor units. Floating point is not modelled.
- bcrypt hashing and comparison, and jsonwebtoken signing and verification, are function parameters. The salt rounds and the secret are left out.
- The admin gate is not composed with each route. Each route is modelled as the handler that runs after the gate lets a request through.
- The read routes are not modelled: product list, detail, count and featured; order list, detail and count; user count. They delegate to the store. Their double answer on a missing record is also left out.
- The category routes, `server/helpers/jwt.js` and the server wiring are not part of this model.
- The client's `verifyToken` request is an oracle reply. `client/src/state/api.js` exports no `useVerifyTokenMutation`, although `client/src/App.js` imports and calls it; the endpoint that would define it is not part of this model.
- The login and products pages are not part of this model. App.IssuedTokenLifetime assumes the login page stores the token's `exp` claim as the decimal text of seconds.
- `Strings.Trim`: white space is space, tab, line feed, carriage return, form feed and vertical tab only. The other Unicode white space is left out.
- `Strings.ParseInt`: leading white space is not skipped.
- `ProductForm.NumericText`: the number grammar is signed decimals with an optional fraction. Exponents, hexadecimal `0x…`, binary `0b…` and octal `0o…` literals, and `Infinity`, are left out; the model reads each of them as NaN where `Number()` gives a number.
- `EditProduct.LoadedData`: loaded prices and stock counts are whole numbers.
- JSX rendering, snackbar and dialog visibility, alerts, console output and `useEffect`/`setInterval` scheduling are not modelled.
- `App.Render`: what the route guard component does with its flag is not modelled. That component is not part of this model.
- Register and create share one handler body, so one member, `Users.UserStore.Create`, models both.
- Each `Validate` is written as one `Checked` statement per field. This is equivalent to the source's `if`/`else if` chain for that field.
- `Products.CreateRejection`: uses the intended file filter, `Uploads.FileFilter`. A part whose declared type is an Object.prototype name, which the route as written accepts, is refused with 500 here (see Findings).
- `Products.UpdateRejection`: uses the intended file filter, as `Products.CreateRejection` does.
- `Products.Catalog.Create`: decides file acceptance with the intended filter, through `Products.CreateRejection`.
- `Products.Catalog.Update`: decides file acceptance with the intended filter, through `Products.UpdateRejection`.
- `Products.Catalog.UpdateGallery`: refuses a request with the intended filter, not the filter as written.
- `EditProduct.EditProductForm.Validate`: uses the intended required test, under which a number, 0 included, counts as filled. The form as written uses falsiness and refuses a loaded stock count of 0 (see Findings).
- `EditProduct.EditProductForm.UpdateProduct`: is gated by the intended required test, as `EditProduct.EditProductForm.Validate` is.
- Ids are any strings. An id that is not a valid ObjectId is not modelled. The delete routes' `.catch` answers 500 for one. The async get and update routes throw for one and never answer. The model answers those as for a missing record (404 or 400).

## Findings

| source | as written | input that shows it | evidently intended | confidence | as-written member | corrected member |
|---|---|---|---|---|---|---|
| server/routers/products.js:11-25 | the allow-list is an object literal indexed by the declared type, so any name inherited from Object.prototype yields a truthy value | a part declared as type `constructor` (or `toString`, `hasOwnProperty`) is accepted | accept only image/png, image/jpeg and image/jpg | high, not executed | Uploads.PrototypeKeyAccepted | Uploads.FileFilter |
| server/routers/orders.js:116-124 | the grouping stage returns an empty array for an empty collection, and `.pop().totalsales` reads a property of `undefined` | GET /get/totalsales with no order in the store throws and never answers | answer a total of 0 | high, not executed | Orders.TotalSalesEmptyThrows | Orders.TotalSales |
| client/src/scenes/edit-product/index.jsx:119-125 | the required test is falsiness, and a loaded product holds its price and stock count as numbers | editing a product loaded with stock 0 shows "Stock count is required" until the field is retyped | a number, 0 included, counts as filled | medium, not executed | EditProduct.LoadedZeroStockRefused | EditProduct.LoadedNumbersFilled |
