# BrewMaster cart, catalogue and access rules in Dafny

BrewMaster is an ASP.NET Core coffee shop. Customers browse the products in stock, fill a cart and check out. Administrators maintain products and read audit logs. This project models the part of the shop that decides what happens, and proves what it promises:

- **The store** (`DbHelper` in Utilities/DbHelper.cs). The cart statements are `AddToCart`, `GetCartItems`, `UpdateCartQuantity`, `RemoveCartItem`, `ClearCart` and `GetCartItemCount`. The catalogue reads are `GetAvailableProducts`, `GetLowStockProducts` and `GetOutOfStockProducts`. The store also holds the product update, the log-table mapping behind the log deletes, and the security-answer check.
  - Two in-memory tables stand in for `tblProducts` and `tblCart`. A `DbHelper` class holds them, the `tblCart` identity seed and the `GETDATE()` clock.
  - Every statement is a method proved against a pure function of the tables.
- **The older helper** (Helpers/DbHelper.cs). It has the same field merge for product updates, and its own security-answer comparison.
- **The view models** `CartViewModel`/`CartItem` and `ProductViewModel`: totals, stock badges, availability, image URL and description truncation.
- **`UserController`** (BrewMaster/Controllers/UserController.cs):
  - the cart actions over the session's user id;
  - image content-type sniffing from magic bytes.
- **`PasswordHasher`**: the salted SHA-256 storage format and its verification.
- **The two action filters**:
  - `RoleAuthorizeAttribute` gates an area by session role;
  - `AllowAnonymousOnlyAttribute` sends logged-in users away from the landing pages.

The main results:

- `AddToCart` succeeds exactly when the product exists, has stock, and the user holds fewer than the stock. A success adds exactly one and never exceeds the stock. Repeated adds cap at the stock.
- The cart table keeps one line per (user, product), and its ids and dates keep rising, through every statement.
- The cart page lists the user's lines newest first. It lists all of them and nothing else, and its item count equals the header badge count.
- A delete touches no other user's page or count.
- The catalogue lists exactly the in-stock products, sorted by name.
- A product update is idempotent, and it keeps a sound row sound.
- Password verification accepts exactly the passwords whose salted digest matches. It always accepts the password the hash was made from.
- The filters admit exactly the right sessions.
- The Helpers security-answer check accepts a blank answer for a user whose stored answer is NULL (see Findings).

Modules: `Wrappers`, `Text` (.NET string and Int32 primitives), `Encoding` (hex, Base64), `PasswordHasher`, `ProductView`, `CartView`, `Tables`, `HelpersDb`, `UtilitiesDb`, `LogTables`, `Mvc`, `RoleAuthorize`, `AllowAnonymousOnly` and `UserController`.

## Model

| member | source | states |
|---|---|---|
| UtilitiesDb.DbHelper.AddToCart | Utilities/DbHelper.cs:701-772 | the reply is the exact message of the branch the tables select (not found, out of stock, at the limit, increased, added); the cart becomes `CartAfterAdd`; only an insert advances the identity and the clock; the products are untouched; the cart invariant is kept |
| UtilitiesDb.AddToCartRule | Utilities/DbHelper.cs:713-764 | success iff the product exists with stock > 0 and the user's quantity of it is below the stock; on success that quantity rises by exactly one, stays within the stock and a line exists; on failure the table is unchanged; one line per (user, product) is kept |
| UtilitiesDb.AddKeepsInvariant | Utilities/DbHelper.cs:733-762 | an add keeps ids and dates increasing and pairs unique, and keeps every line below the identity seed and the clock, which advance exactly on insert |
| UtilitiesDb.AddChangesOnlyItsPair | Utilities/DbHelper.cs:744-762 | an add changes the summed quantity of a user or pair filter by one when it succeeds and selects the new line, and by nothing otherwise |
| UtilitiesDb.RepeatedAddsCapAtStock | Utilities/DbHelper.cs:733-764 | after `n` adds of an in-stock product not yet in the cart, the pair has a line iff `n > 0`, its summed quantity is `min(n, stock)`, and pairs stay unique |
| UtilitiesDb.DbHelper.GetCartItems | Utilities/DbHelper.cs:774-812 | the read loop builds exactly `CartItemsOf`, the user's lines joined with their product, newest first |
| UtilitiesDb.CartItemsNewestFirst | Utilities/DbHelper.cs:783-787 | with ids and dates rising together, the cart ids on the page strictly fall (`ORDER BY AddedDate DESC`) |
| UtilitiesDb.CartItemsComplete | Utilities/DbHelper.cs:783-786 | every line of the user whose product exists appears on the page joined with that product |
| UtilitiesDb.CartItemsSound | Utilities/DbHelper.cs:783-786 | every item on the page is one of the user's lines joined with its product |
| UtilitiesDb.CartPageMatchesCount | Utilities/DbHelper.cs:774-890 | when every line of the user joins a product, the page's `ItemCount` equals the `SUM(Quantity)` that `GetCartItemCount` reads |
| UtilitiesDb.DbHelper.UpdateCartQuantity | Utilities/DbHelper.cs:814-832 | the line with that id gets the new quantity and nothing else changes; the result is true iff such a line existed; the invariant is kept |
| UtilitiesDb.SetQuantityIgnoresStock | Utilities/DbHelper.cs:821-825 | no stock bound: after the update the line's pair holds exactly the quantity given, and the table keeps its invariant |
| UtilitiesDb.DbHelper.RemoveCartItem | Utilities/DbHelper.cs:834-851 | the line with that id is deleted whoever owns it; true iff one existed; the invariant is kept |
| UtilitiesDb.RemoveCartItemEffect | Utilities/DbHelper.cs:841-844 | the deleted line is gone, and every other user's page and count are unchanged |
| UtilitiesDb.DbHelper.ClearCart | Utilities/DbHelper.cs:853-870 | all of the user's lines are deleted; true iff there were any; the invariant is kept |
| UtilitiesDb.ClearCartEffect | Utilities/DbHelper.cs:860-863 | after clearing, the user's page is empty and the count is 0; any other user's page and count are unchanged |
| UtilitiesDb.DeleteIdempotent | Utilities/DbHelper.cs:834-870 | deleting twice is deleting once, and a second delete affects no row |
| UtilitiesDb.DeleteInvisibleToUser | Utilities/DbHelper.cs:841-863 | a delete that selects none of a user's lines leaves that user's page and count unchanged |
| UtilitiesDb.NoLinesNoItems | Utilities/DbHelper.cs:783-786 | a user with no lines sees an empty page |
| UtilitiesDb.WithoutKeepsInvariant | Utilities/DbHelper.cs:841-863 | a delete keeps ids and dates increasing, pairs unique and lines below the seeds |
| UtilitiesDb.SetQuantityKeepsInvariant | Utilities/DbHelper.cs:821-825 | a quantity update keeps the cart invariant |
| UtilitiesDb.DbHelper.GetCartItemCount | Utilities/DbHelper.cs:872-890 | the count is an Int32; it is the user's summed quantity whenever that fits, and 0 for a user with no lines (`COALESCE`) |
| UtilitiesDb.PairQuantityIsLineQuantity | Utilities/DbHelper.cs:727-736 | with one line per pair, the pair's summed quantity is that line's quantity, or 0 when there is none |
| UtilitiesDb.CountWhere | Utilities/DbHelper.cs:825 | the affected-row count is 0 iff no line matches the WHERE clause |
| UtilitiesDb.Without | Utilities/DbHelper.cs:841-844 | the table after a DELETE holds exactly the lines the clause does not select |
| UtilitiesDb.SetQuantityMovesCount | Utilities/DbHelper.cs:821-825 | after the UPDATE on an existing line, every `SUM(Quantity)` that selects the line (the owner's header count, the pair's quantity) moves by exactly `quantity - old quantity`, and every other sum, such as another user's count, is unchanged |
| UtilitiesDb.LineIndex | Utilities/DbHelper.cs:727-733 | finds a line of the (user, product) pair exactly when one exists |
| UtilitiesDb.ProductIndex | Utilities/DbHelper.cs:708-716 | finds a product with the id exactly when one exists |
| UtilitiesDb.DbHelper.GetAvailableProducts | Utilities/DbHelper.cs:644-677 | the list is the view of each in-stock row, in name order |
| UtilitiesDb.ReadViews | Utilities/DbHelper.cs:658-670 | the reader loop maps each row to its view model, in order |
| UtilitiesDb.AvailableProductsSpec | Utilities/DbHelper.cs:650-653 | the list holds exactly the products with stock > 0, as a permutation of them, sorted by name, each shown as available |
| UtilitiesDb.SortByNameSorted | Utilities/DbHelper.cs:653 | the name sort yields a name-ordered sequence |
| UtilitiesDb.ProductsWhere | Utilities/DbHelper.cs:1002-1004 | the selected rows are exactly the table's rows that the stock filter admits, with no row repeated beyond its count in the table |
| UtilitiesDb.DbHelper.GetLowStockProducts | Utilities/DbHelper.cs:996-1014 | exactly the products with 0 < stock <= threshold |
| UtilitiesDb.DbHelper.GetOutOfStockProducts | Utilities/DbHelper.cs:1016-1033 | exactly the products with stock 0 |
| UtilitiesDb.StockListsMatchBadges | Utilities/DbHelper.cs:1002-1024 | the out-of-stock list is the rows badged out of stock; with threshold 9, the largest count the view's `Stock < 10` low-stock badge shows, the low-stock list is the positive rows badged low; no row is on both the out-of-stock and the in-stock lists |
| UtilitiesDb.DbHelper.UpdateProducts | Utilities/DbHelper.cs:251-302 | false and no write when no product has the id; otherwise exactly that row is replaced by the merge of stored and submitted values |
| HelpersDb.MergeProduct | Helpers/DbHelper.cs:321-348 | the row the UPDATE writes (a blank name or description, a price <= 0, a negative stock or a missing image keeps the stored value); a definition, whose properties are the merge lemmas below |
| HelpersDb.MergeOnlyCopies | Helpers/DbHelper.cs:329-348 | the update never changes the key or the creation date, and writes into each column either the stored or the submitted value, never a third one |
| HelpersDb.FullFormOverwrites | Helpers/DbHelper.cs:340-348 | after a form with every field usable, the row no longer depends on what any earlier update wrote |
| HelpersDb.MergeIdempotent | Helpers/DbHelper.cs:340-348 | submitting the same form twice stores the same row as submitting it once |
| HelpersDb.MergeKeepsRowSound | Helpers/DbHelper.cs:340-343 | a row with a non-blank name, positive price and non-negative stock keeps all three through any update |
| HelpersDb.MergeOwnView | Helpers/DbHelper.cs:321-348 | submitting the row's own view back changes nothing except that a NULL description becomes "" |
| HelpersDb.MergeBlankForm | Helpers/DbHelper.cs:340-348 | an all-blank form changes nothing except that a NULL description becomes "" |
| HelpersDb.VerifySecurityAnswer | Helpers/DbHelper.cs:165-184 | the Helpers check as written: a missing user or a null answer is rejected, a NULL stored answer compares as ""; its properties are the lemmas below |
| HelpersDb.VerifySecurityAnswerChecked | Utilities/DbHelper.cs:161-187 | the Utilities check: a missing user or a NULL stored answer is rejected outright; characterised by `VerifySecurityAnswerCheckedIff` |
| HelpersDb.VerifySecurityAnswerCheckedIff | Utilities/DbHelper.cs:172-180 | the Utilities check accepts exactly a stored, non-NULL answer equal to the given one after trimming and lower-casing both |
| HelpersDb.VersionsAgreeOnStoredAnswers | Helpers/DbHelper.cs:176-177 | the two models agree whenever the user exists and the stored answer is not NULL; this holds of the model's ASCII case folding, not of the culture-aware comparison (see Left out) |
| HelpersDb.AnswerIgnoresPaddingAndCase | Helpers/DbHelper.cs:176-177 | surrounding white space and letter case of the answer do not change the verdict |
| HelpersDb.NullStoredAnswerAcceptsBlank | Helpers/DbHelper.cs:176-177 | with a NULL stored answer the Helpers version accepts "" and the Utilities version rejects it |
| LogTables.GetTableName | Utilities/DbHelper.cs:433-443 | the table of each of the four log types, "" for any other; distinctness in `TablesDistinct` |
| LogTables.GetIdColumn | Utilities/DbHelper.cs:445-448 | `ErrorId` for the error log, `LogId` for anything else; tied to the table by `IdColumnFollowsTable` |
| LogTables.DeleteByIdTarget | Utilities/DbHelper.cs:387-409 | the table and key column `DeleteLogById` deletes from, or none when it returns early; see `DeletesOnlyKnownTypes` |
| LogTables.DeleteAllTarget | Utilities/DbHelper.cs:411-431 | the table `DeleteAllLogs` empties, or none when it returns early; see `DeletesOnlyKnownTypes` |
| LogTables.DeletesOnlyKnownTypes | Utilities/DbHelper.cs:387-443 | both log deletes reach a table exactly for the four known log types, and both reach the same table |
| LogTables.TablesDistinct | Utilities/DbHelper.cs:433-443 | distinct log types map to distinct tables |
| LogTables.IdColumnFollowsTable | Utilities/DbHelper.cs:445-448 | the key column is `ErrorId` for the error-log table and `LogId` for the three audit tables |
| CartView.ItemTotal | Models/CartViewModel.cs:21 | price times quantity of one line; summed by `TotalIsSumOfItemTotals` |
| CartView.Total | Models/CartViewModel.cs:8 | the cart total; additive over lines (`TotalAppend`), 0 when empty, non-negative for sound lines (`TotalsBounds`) |
| CartView.ItemCount | Models/CartViewModel.cs:9 | the summed quantities; additive (`ItemCountAppend`), equal to the header count (`UtilitiesDb.CartPageMatchesCount`) |
| CartView.IsEmpty | Models/CartViewModel.cs:10 | no lines; an empty cart totals 0 with 0 items (`EmptyCart`) |
| CartView.TotalIsSumOfItemTotals | Models/CartViewModel.cs:8-21 | `Total` equals the sum of the per-line `ItemTotal`s |
| CartView.TotalAppend | Models/CartViewModel.cs:8 | the total of two groups of lines is the sum of their totals |
| CartView.ItemCountAppend | Models/CartViewModel.cs:9 | the item count of two groups of lines is the sum of their counts |
| CartView.EmptyCart | Models/CartViewModel.cs:8-10 | an empty cart has total 0 and item count 0 |
| CartView.TotalsBounds | Models/CartViewModel.cs:8-9 | with non-negative prices and quantities >= 1, the total is >= 0 and the item count is at least the number of lines |
| ProductView.StockStatus | Models/ProductViewModel.cs:43-48 | the badge text by stock tier; see `BadgesFollowTier` and `LowStockShowsCount` |
| ProductView.StockClass | Models/ProductViewModel.cs:50-56 | the badge CSS class by stock tier; see `BadgesFollowTier` |
| ProductView.IsAvailable | Models/ProductViewModel.cs:59 | stock > 0; see `AvailabilityMatchesBadge` |
| ProductView.ImageUrl | Models/ProductViewModel.cs:62 | the image route plus the id; see `ImageUrlRoundTrip` |
| ProductView.TruncatedDescription | Models/ProductViewModel.cs:64-72 | the shown description; see `TruncationShape`, `TruncationIdempotent` and `PlaceholderNotIdempotent` |
| ProductView.BadgesFollowTier | Models/ProductViewModel.cs:43-56 | status text and CSS class always pick the same tier (out of stock, low, in stock), both ways |
| ProductView.LowStockShowsCount | Models/ProductViewModel.cs:46 | a low-stock badge is the count followed by " Left", and the count reads back as the stock |
| ProductView.AvailabilityMatchesBadge | Models/ProductViewModel.cs:43-59 | for stock >= 0, available iff not badged out of stock; a negative stock is unavailable yet badged low |
| ProductView.ImageUrlRoundTrip | Models/ProductViewModel.cs:62 | the URL is the fixed route plus the id, which parses back to the id |
| ProductView.TruncationShape | Models/ProductViewModel.cs:64-72 | a missing description gives the placeholder; otherwise the text keeps the description's first `min(length, maxLength)` characters, is at most `maxLength + 3` long and at most 2 longer than the description, is the whole description when it fits, and ends in "..." when it does not |
| ProductView.TruncationIdempotent | Models/ProductViewModel.cs:64-72 | for a non-empty description, truncating twice with the same length is truncating once |
| ProductView.PlaceholderNotIdempotent | Models/ProductViewModel.cs:66-67 | for a missing description and a length below 24, truncating the shown placeholder again changes it |
| PasswordHasher.HashPasswordWithSalt | BrewMaster/Utilities/PasswordHasher.cs:16-27 | the builder loop produces the hex of the digest, then `:`, then the salt |
| PasswordHasher.StoredFormat | BrewMaster/Utilities/PasswordHasher.cs:16-27 | the stored value is 64 lower-case hex digits, `:` and the salt |
| PasswordHasher.HashPassword | BrewMaster/Utilities/PasswordHasher.cs:7-14 | a null or empty password fails; otherwise the result is the salted hash, and the password verifies against it |
| PasswordHasher.GenerateSalt | BrewMaster/Utilities/PasswordHasher.cs:59-64 | the salt is 24 characters without `:` |
| PasswordHasher.VerifyPassword | BrewMaster/Utilities/PasswordHasher.cs:29-57 | the verification as written; characterised by `VerifyPasswordIff` |
| PasswordHasher.Split | BrewMaster/Utilities/PasswordHasher.cs:36 | `Split(':')`: at least one piece, and no piece contains the separator |
| PasswordHasher.VerifyPasswordIff | BrewMaster/Utilities/PasswordHasher.cs:29-57 | accepts exactly non-empty inputs whose stored text has one `:` and whose recomputed hex equals the stored hex part |
| PasswordHasher.VerifyRoundTrip | BrewMaster/Utilities/PasswordHasher.cs:16-57 | a non-empty password verifies against its own hash, for any salt without `:` |
| PasswordHasher.GeneratedSaltRoundTrip | BrewMaster/Utilities/PasswordHasher.cs:7-64 | every generated salt gives a verifiable hash |
| PasswordHasher.VerifyMeansSameDigest | BrewMaster/Utilities/PasswordHasher.cs:43-51 | a wrong password verifies only when its salted SHA-256 collides with the right one's |
| PasswordHasher.RecomputedSplits | BrewMaster/Utilities/PasswordHasher.cs:43-47 | the recomputed hash always splits into its hex and the salt |
| PasswordHasher.SplitCount | BrewMaster/Utilities/PasswordHasher.cs:36-38 | `Split` gives one more piece than there are separators |
| PasswordHasher.SplitJoined | BrewMaster/Utilities/PasswordHasher.cs:36-41 | `a:b` splits back into `a` and `b` when neither contains `:` |
| PasswordHasher.SplitInTwo | BrewMaster/Utilities/PasswordHasher.cs:36-41 | two pieces means the text is the first, `:`, then the second, neither containing `:` |
| Encoding.Hex | BrewMaster/Utilities/PasswordHasher.cs:22-25 | `ToString("x2")` per byte; see `HexIsLowerHex` and `HexInjective` |
| Encoding.Base64Encode | BrewMaster/Utilities/PasswordHasher.cs:63 | `Convert.ToBase64String`; see `Base64Shape` |
| Encoding.HexIsLowerHex | BrewMaster/Utilities/PasswordHasher.cs:22-25 | the hex text has only lower-case hex digits, so no `:` |
| Encoding.HexInjective | BrewMaster/Utilities/PasswordHasher.cs:22-25 | equal hex texts come from equal bytes |
| Encoding.Base64Shape | BrewMaster/Utilities/PasswordHasher.cs:63 | Base64 text has 4 characters per started 3-byte group, all from the alphabet or `=`, never `:` |
| Text.TrimToLower | Helpers/DbHelper.cs:176-177 | trimming and lower-casing commute |
| Text.TrimIdempotent | Helpers/DbHelper.cs:176-177 | trimming twice is trimming once |
| Text.TrimIsMiddleSlice | Utilities/DbHelper.cs:179-180 | `Trim` keeps a contiguous middle slice of the text |
| Text.TrimCutsOnlyWhiteSpace | Utilities/DbHelper.cs:179-180 | everything `Trim` cuts, either side, is white space |
| Text.TrimEnds | Utilities/DbHelper.cs:179-180 | the trimmed text neither starts nor ends with white space |
| Text.ParseIntToString | BrewMaster/Controllers/UserController.cs:47 | `int.Parse` reads back every Int32 that `ToString` writes |
| RoleAuthorize.RoleAuthorizeAttribute.OnActionExecuting | Utilities/RoleAuthorizeAttribute.cs:15-25 | redirects to Home/Login unless the session role is admitted, and otherwise leaves the result alone |
| RoleAuthorize.Admits | Utilities/RoleAuthorizeAttribute.cs:17-19 | the filter's test; characterised by `AdmitsIff` |
| RoleAuthorize.AdmitsIff | Utilities/RoleAuthorizeAttribute.cs:17-19 | a session is admitted iff its role is exactly the required one, and an empty required role admits nobody |
| RoleAuthorize.AdmitsIsCaseSensitive | Utilities/RoleAuthorizeAttribute.cs:19 | for every required role, a session role that differs from it only in letter case is turned away |
| AllowAnonymousOnly.AllowAnonymousOnlyAttribute.OnActionExecuting | BrewMaster/Utilities/AllowAnonymousOnlyAttribute.cs:8-38 | sets exactly the redirect `AnonymousOnlyRedirect` gives, and otherwise leaves the result alone |
| AllowAnonymousOnly.AnonymousOnlyRedirect | BrewMaster/Utilities/AllowAnonymousOnlyAttribute.cs:10-35 | the redirect the filter sets, if any; see the three lemmas below |
| AllowAnonymousOnly.LogoutNeverRedirected | BrewMaster/Utilities/AllowAnonymousOnlyAttribute.cs:10-15 | `Logout` in any letter case is never redirected |
| AllowAnonymousOnly.RedirectsExactlyLoggedIn | BrewMaster/Utilities/AllowAnonymousOnlyAttribute.cs:17-35 | any other action is redirected iff a role is in the session, to Admin/Index, User/Index or Home/Index by role |
| AllowAnonymousOnly.KnownRolesReachTheirArea | BrewMaster/Utilities/AllowAnonymousOnlyAttribute.cs:23-30 | an Admin or User turned away by the other area's gate is sent from Home/Login to its own area, whose gate admits it |
| AllowAnonymousOnly.UnknownRoleRedirectsToItself | BrewMaster/Utilities/AllowAnonymousOnlyAttribute.cs:31-34 | any other role is redirected to Home/Index, which redirects it to itself again |
| UserController.GetImageContentType | BrewMaster/Controllers/UserController.cs:91-115 | the byte tests; characterised by `ContentTypeBySignatureTable` |
| UserController.ContentTypeBySignatureTable | BrewMaster/Controllers/UserController.cs:91-115 | the byte tests give the type of the first matching entry of the JPEG/PNG/GIF/BMP signature table, JPEG when none matches |
| UserController.ContentTypeIsImage | BrewMaster/Controllers/UserController.cs:91-115 | the answer is always one of the four image types |
| UserController.PngSignatureRecognised | BrewMaster/Controllers/UserController.cs:99-102 | data opening with the full 8-byte PNG signature is served as PNG |
| UserController.GifHeadersRecognised | BrewMaster/Controllers/UserController.cs:104-106 | GIF87a and GIF89a headers are served as GIF |
| UserController.ShortPngServedAsJpeg | BrewMaster/Controllers/UserController.cs:100-114 | 4 to 7 bytes opening with the PNG magic fail the length test and are served as JPEG |
| UserController.ParseSessionInt | BrewMaster/Controllers/UserController.cs:47 | a session id parses only when present, and only to an Int32 |
| UserController.AddToCart | BrewMaster/Controllers/UserController.cs:43-63 | a missing or bad session id gives the generic error reply and no change to the cart, the identity seed or the clock; otherwise the reply is the store's, the cart changes as the store's add, and a toast is set iff the add succeeded |
| UserController.UpdateQuantity | BrewMaster/Controllers/UserController.cs:126-141 | a quantity <= 0 deletes the line, any other is written without a stock bound; the reply is always a success |
| UserController.UpdateQuantityKeepsQuantitiesPositive | BrewMaster/Controllers/UserController.cs:130-133 | through this action no line ever ends with a quantity <= 0 |
| UserController.NonPositiveQuantityRemoves | BrewMaster/Controllers/UserController.cs:130-131 | a quantity <= 0 removes the line and leaves every other user's page unchanged |
| UserController.RemoveItem | BrewMaster/Controllers/UserController.cs:145-157 | deletes the line; the reply is a success whether or not a row was deleted |
| UserController.GetCartCount | BrewMaster/Controllers/UserController.cs:187-201 | the store's count for the session user, or 0 when the session id is missing or bad |
| UserController.Checkout | BrewMaster/Controllers/UserController.cs:161-172 | an unparsable session id throws; a missing user name redirects to Landing/Login; otherwise the order is placed for that user with exactly the cart page's items |

## Left out

- ADO.NET, connections, `SqlException`s and the `catch` blocks they reach. Each statement is modelled by its effect on in-memory tables. The handlers that turn an exception into `false`, an empty list or 0 are not modelled, except where a modelled input causes the exception: Int32 overflow of the count, a bad session id, a null answer.
- Concurrency between requests, and SQL transactions.
- The SQL Server collation of `ORDER BY ProductName`: the model sorts names by ordinal character comparison, which is stable on equal names.
- `GETDATE()` is the server's local wall clock. The model's clock rises strictly on every insert, so it neither repeats nor goes back. In the source, equal stamps have no defined order under `ORDER BY AddedDate DESC`. A clock set back (a daylight-saving fall-back, an NTP correction) sorts a later line below an older one. `UtilitiesDb.CartItemsNewestFirst` rests on this assumption.
- `UtilitiesDb.DbHelper.GetCartItemCount`: SQL Server's `SUM` over `int` fails with an overflow error when the sum leaves Int32, and the handler then returns 0. The contract states the in-range value and that the count is always an Int32, not which value comes back on overflow.
- `CartView.Total` and `CartView.ItemCount`: `decimal` is modelled as a real. `Sum` over `int` quantities throws on Int32 overflow, and that is not modelled.
- SHA-256 and the random number generator are parameters (`sha`, `saltBytes`), and the UTF-8 encoding is folded into `sha`. Nothing is assumed about them beyond their output sizes.
- Letter case: the model folds ASCII letters only. .NET's `ToLower`, `OrdinalIgnoreCase` and `CurrentCultureIgnoreCase` fold every Unicode letter that has a case mapping (É/é, Ü/ü, Σ/σ). All non-ASCII case pairs are left out, and so are culture-specific mappings such as the Turkish `İ`. For example, a stored answer "München" and a given "MÜNCHEN" verify in both C# checks (Helpers/DbHelper.cs:176-177, Utilities/DbHelper.cs:180), but `HelpersDb.VerifySecurityAnswer` and `HelpersDb.VerifySecurityAnswerChecked` reject the pair.
- `HelpersDb.VerifySecurityAnswerChecked`: the source compares with `CurrentCultureIgnoreCase` (Utilities/DbHelper.cs:180). That comparison is linguistic, and the model leaves out two of its rules. Canonically equivalent forms compare equal (a stored "é" against "e" plus a combining acute accent), and ignorable characters (a soft hyphen, a zero-width joiner) are skipped. The Utilities version therefore accepts some answers the model rejects. `HelpersDb.VersionsAgreeOnStoredAnswers` holds of the model only: the Helpers version's ordinal `==` rejects such answers.
- `ProductView.TruncatedDescription`: a negative `maxLength` throws in `Substring`. The function requires a non-negative length when there is a description. Lengths count Unicode characters, while C# `Length` and `Substring` count UTF-16 code units. For "😀" and a length of 1, the source cuts the surrogate pair and returns a lone high surrogate plus "...". The model returns "😀" unchanged. The default `maxLength = 250` is not modelled; callers pass the length.
- `UserController.Checkout`: `GetUserDetails` and `PlaceOrder` are not part of this model. `PlaceOrder` is not defined in the store. The contract ends at the call, naming the user and the cart it passes, so the success and failure redirects after it are not covered.
- `UserController.UpdateQuantity` and `UserController.RemoveItem`: the `{ success = false }` reply of the exception handler is not modelled. With in-memory tables those actions cannot throw.
- `UtilitiesDb.DbHelper.UpdateProducts`: the `SetSessionUser` call before the update sets a session context for the audit trigger, and is not modelled. The contract says true iff the product exists: the `ExecuteNonQuery() > 0` of a single-row update on an existing key.
- `FormattedPrice` (Models/ProductViewModel.cs:40), a currency-formatting string, is not modelled.
- The controller actions `Index`, `ProductImage`, `Cart` and `Account`, and the admin and home controllers, are not modelled. They only pass data between the store and the views. `ProductImage` only adds the file read of a placeholder around `GetImageContentType`.
- `GetBindQuery`, `GetSearchQuery` and `GetLogs` are not modelled; they build SQL text. A null `logType` (a `switch` on null) is not modelled; log types are strings.
- The column projection of `GetLowStockProducts` and `GetOutOfStockProducts` (a `DataTable` with a few columns) is not modelled. The model returns whole rows.
- `AddProduct`, `DeleteProducts`, `GetProductImage`, user management, login auditing and the dashboard aggregates are not modelled; they are not cart, catalogue or access rules.

## Findings

| source | as written | input that shows it | evidently intended | confidence | as-written member | corrected member |
|---|---|---|---|---|---|---|
| Helpers/DbHelper.cs:176-177 | `ExecuteScalar()?.ToString()?.Trim().ToLower()` turns a NULL `SecurityAnswer` column (`DBNull`) into "", which equals a blank answer | a user whose stored security answer is NULL, answering "" (or only spaces) | a NULL stored answer never verifies, as in Utilities/DbHelper.cs:174-177 | medium; not executed; latent: the one caller in view, `ForgotPassword` (Controllers/HomeController.cs:183-190), checks `ModelState.IsValid` first, and `[Required]` on `SecurityAnswer` (BrewMaster/Models/LoginViewModel.cs:30-31) rejects blank answers, so only a caller that does not validate the form reaches it | HelpersDb.NullStoredAnswerAcceptsBlank | HelpersDb.VerifySecurityAnswerCheckedIff |
