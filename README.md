# TurntPlugins storefront — a Dafny model

This project models the server side of the TurntPlugins web shop, plus the
cart on its landing page, and proves properties of the model. The shop sells
audio plugins. Payment goes through PayPal, or Stripe in older orders, and some
plugins are free. Every order is stored with its list of plugins. Each plugin
of an order gets two time-limited download grants, one per platform. The
customer receives links that carry a base64 token naming the order and the
plugin. Two products come with a license key, VocalFelt and TapeBloom. An admin
area shows statistics and a daily chart, can re-issue TapeBloom keys and rename
a customer's email, and exports CSV lists of customers and subscribers.

Modules, one per file:

- `License` (license.dfy): the license key codec. A key is
  `<FAMILY>-p1-p2-p3-p4`, and p4 is the base-36 numeral of the sum of the
  character codes of p1 to p3.
- `Utf8`, `Base64` (utf8.dfy, base64.dfy): the byte encodings under a download
  token.
- `PluginJson`, `Json` (pluginjson.dfy, json.dfy): the stored plugin-list text,
  and the JSON values the PayPal routes read.
- `Catalogue` (pluginfiles.dfy): the installer catalogue and the signed
  download URL.
- `Store` (store.dfy): the two tables `orders` and `downloads` as a class
  `Db`, with the operations of the database helper module.
- `Grants`, `OrderProcessor` (grants.dfy, orderprocessor.dfy): the shared
  step that saves an order and writes its grants.
- Routes: `Download`, `FreeDownload`, `Regenerate`, `OrdersRoute`, `PayPal`
  (webhook and capture), `Chart`, `Stats`, `TapeBloomRoute`,
  `UpdateEmailRoute`, `ExportEmails`, `ExportSubscribers`.
- `Csv` (csv.dfy): the CSV text both exports build.
- `Cart` (cart.dfy): the landing page's cart as a class with its four handlers.
- `Wrappers`, `Seqs`, `Text`, `Arith`: helpers (Option, filtering, stable
  sorting, splitting and joining, decimal numerals, ASCII case, the email
  pattern).

Outside inputs become parameters of the model:

- the clock is `now` (milliseconds) or `today` (an abstract day number);
- random key segments are a `License.Draw`, and the random suffix of a free
  session id is `suffix`;
- the rate limiter's answer is `allowed`;
- PayPal's signature check and API answers are `verified`, `capture` and
  `details`;
- `JSON.parse` of request bodies is a `parse` function;
- whether an email send call threw is a boolean;
- the locale date format is `formatDate`;
- environment variables are `appUrl` and `adminPassword`;
- the lower-case mapping of `toLowerCase` and of Postgres `LOWER` is `toLower`.

How the database is modelled:

- Each database statement is one step on `Db`.
- A failing statement is an error value, not an exception.
- `ORDER BY ... DESC` is a stable sort, so ties keep table order.

## Model

| member | source | states |
|---|---|---|
| License.Prefix | app/lib/licenseGenerator.ts:52 | the family prefix is nine characters with no dash |
| License.Base36Chars36 | app/lib/licenseGenerator.ts:9-19 | encodeBase36 writes exactly `length` characters, each one of BASE36_CHARS |
| License.Base36RoundTrip | app/lib/licenseGenerator.ts:9-19 | the numeral read back gives value mod 36^length, so the truncation to `length` digits is the only loss |
| License.EncodeBase36 | app/lib/licenseGenerator.ts:9-19 | the prepend-digit loop computes exactly the base-36 numeral function |
| License.CalculateChecksum | app/lib/licenseGenerator.ts:29-40 | the twelve-code summing loop gives the checksum function, and the result is a four-character base-36 segment |
| License.CodeSumBound | app/lib/licenseGenerator.ts:29-37 | the code sum of a base-36 string lies between 48 and 90 per character |
| License.ChecksumIsSegment | app/lib/licenseGenerator.ts:39 | every checksum is a valid segment |
| License.ChecksumNoWrap | app/lib/licenseGenerator.ts:29-40 | for real segments the sum is below 36^4, so the four digits encode it without loss |
| License.ChecksumLeadingZeros | app/lib/licenseGenerator.ts:29-40 | for real segments the checksum always starts with "00" |
| License.ValidateLicense | app/lib/licenseGenerator.ts:73-144 | the validator's length, split, prefix, per-character loop and checksum comparison decide exactly the validity predicate |
| License.Generate | app/lib/licenseGenerator.ts:46-66 | a generated key splits into the family prefix, the three segments and their checksum, is 29 characters long, and validates for its own family |
| License.KeyParts | app/lib/licenseGenerator.ts:52 | the template literal joins the prefix, the three segments and the checksum so that splitting on '-' gives those five parts back, and the key is 29 characters long |
| License.ValidIsGenerated | app/lib/licenseGenerator.ts:73-144 | conversely, every valid key is the generated key of its own three segments |
| License.ValidKeyLength | app/lib/licenseGenerator.ts:74-81 | a valid key is exactly 29 characters long, although the check only asks for at least 29 |
| License.FamiliesDisjoint | app/lib/licenseGenerator.ts:83-85 | no key is valid for both VocalFelt and TapeBloom |
| License.ValidRejectsDashInChecksum | app/lib/licenseGenerator.ts:78-81 | a last part holding a dash never validates |
| License.TamperedChecksumRejected | app/lib/licenseGenerator.ts:103-104 | replacing the checksum with any other four characters makes the key invalid |
| License.LowercaseRejected | app/lib/licenseGenerator.ts:88-100 | a lower-case letter in a value part is rejected before the case-insensitive comparison is reached |
| Utf8.Encode | app/data/pluginFiles.ts:149 | the encoding is at least as long as the text |
| Utf8.DecodeOne | app/api/download/route.ts:19 | one decoded scalar value consumes between 1 and 4 of the bytes available |
| Utf8.DecodeOneEncodeChar | app/api/download/route.ts:19 | reading back the bytes of one character gives that character and its byte length |
| Utf8.Decode | app/api/download/route.ts:19 | a successful strict decode is a string whose UTF-8 encoding is exactly the input bytes, and no longer than them |
| Utf8.DecodeEncode | app/data/pluginFiles.ts:149 | round trip: decoding the UTF-8 encoding of any string gives the string |
| Utf8.EncodeAscii | app/data/pluginFiles.ts:149 | characters below U+0080 are one byte each, equal to their code |
| Base64.Char | app/data/pluginFiles.ts:149 | every sextet value maps to an alphabet character that decodes back to it |
| Base64.Value | app/api/download/route.ts:19 | only alphabet characters decode, and to values below 64 |
| Base64.Encode | app/data/pluginFiles.ts:149 | the output length is a multiple of 4 and not shorter than the input, and every character is in the alphabet or is padding |
| Base64.DecodeGroup | app/api/download/route.ts:19 | a four-character group yields one to three bytes |
| Base64.Decode | app/api/download/route.ts:19 | a decoded text is a whole number of four-character groups of alphabet or padding characters, and yields between 3n-2 and 3n bytes for n groups |
| Base64.DecodeEncode | app/data/pluginFiles.ts:149 | round trip: decoding the base64 of any byte sequence gives the bytes back |
| PluginJson.EscapeChar | app/api/lib/db.ts:86 | JSON.stringify writes one to six characters per character |
| PluginJson.Serialize | app/api/lib/db.ts:86 | round trip: the stored plugins text of any plugin list parses back to that list |
| PluginJson.Parse | app/api/regenerate-links/route.ts:31 | a parsed text is bracketed, and it is the empty list exactly for "[]" |
| PluginJson.SerializeContainsId | app/api/lib/db.ts:86 | the stored text of a list holding plugin id x contains `"id":"x"` when x needs no escaping |
| PluginJson.SerializeContainsTapeBloom | app/api/admin/generate-tapebloom-license/route.ts:22 | every stored list holding TapeBloom (id "4") matches the LIKE pattern |
| Json.Lookup | app/api/paypal/webhooks/route.ts:104-114 | a member lookup finds a member exactly when one exists under that key, and returns the last one |
| Json.LookupAppendOther | app/api/paypal/capture-order/route.ts:72 | members under other keys do not change a lookup |
| Catalogue.PlatformName | app/data/pluginFiles.ts:10 | each platform has a non-empty name |
| Catalogue.GetPluginFile | app/data/pluginFiles.ts:141-143 | an entry is returned exactly for the catalogued ids, under its own id |
| Catalogue.CatalogueWellFormed | app/data/pluginFiles.ts:18-138 | every entry has a macOS installer first and a Windows installer second, both published under the release URL |
| Catalogue.BundleHasNoFiles | app/data/pluginFiles.ts:18-138 | the bundle id has no catalogue entry |
| Catalogue.BaseUrl | app/data/pluginFiles.ts:147 | the configured app URL is used when it is set and non-empty, the localhost default otherwise |
| Catalogue.Token | app/data/pluginFiles.ts:149 | a token never contains '&', so it cannot break the query string |
| Text.ParseInt | app/api/download/route.ts:34 | parseInt gives NaN for a text without any decimal digit, and a negative number only when the text has a '-' |
| Text.ParseIntPrefix | app/api/paypal/webhooks/route.ts:117 | parseInt reads the decimal digits up to the first non-digit: `parseInt("19.99")` is 19 |
| Text.ParseIntHex | app/api/download/route.ts:34 | without a radix, "0x" or "0X" switches parseInt to hexadecimal, and "0x" with no hex digit is NaN |
| Text.ParseIntNatToString | app/api/download/route.ts:34 | parseInt reads back a decimal id written with toString |
| Text.IntToString | app/api/paypal/webhooks/route.ts:111 | the decimal text of any integer, signed when negative, which parseInt reads back |
| Text.LowerAsciiIsLowerCasing | app/api/admin/update-email/route.ts:22-29 | ASCII lower-casing is idempotent and keeps '@', the two facts the rename route relies on |
| Catalogue.SignedUrl | app/data/pluginFiles.ts:146-151 | a signed URL is the download path followed by the token field, plus the platform field exactly when a platform is given |
| Store.Bumped | app/api/lib/db.ts:149-160 | every grant of that order and plugin gains one download, and every other row is unchanged |
| Store.WithTapeBloomKey | app/api/admin/generate-tapebloom-license/route.ts:40-44 | the key column of the rows with that id is set, and nothing else changes |
| Store.WithEmail | app/api/admin/update-email/route.ts:29 | exactly the rows whose lower-cased email is the old address get the new one, and nothing else changes |
| Store.FindOrder | app/api/regenerate-links/route.ts:17-28 | an order is found exactly when the id exists, and the row found has that id |
| Store.FindSession | app/api/paypal/webhooks/route.ts:74-78 | a transaction is found exactly when its session id is on file |
| Store.ViewOf | app/api/lib/db.ts:116-146 | an order view keeps the order's columns, and lists its grants, or one null grant when the order has none (the LEFT JOIN) |
| Store.OrdersByEmail | app/api/lib/db.ts:116-146 | getOrdersByEmail returns exactly the orders with that email, newest first, each with its grants: as a multiset the result is the views of the matching orders, so each appears once and there are as many views as matching orders |
| Store.OptedInEmailsExact | app/api/lib/db.ts:163-171 | an email appears in the opted-in list exactly when some opted-in order carries it |
| Store.Subscribers | app/api/lib/db.ts:163-177 | subscribers are sorted newest first and are distinct by email, and each is an opted-in email with its latest opt-in time |
| Store.SubscribersDistinct | app/api/lib/db.ts:163-171 | no email appears twice among the subscribers |
| Store.SubscribersMembers | app/api/lib/db.ts:163-171 | a subscriber entry exists exactly for each opted-in email, with its latest opt-in time |
| Store.Db.constructor | app/api/lib/db.ts:23-73 | the tables start empty and the id sequence starts at 1 |
| Store.Db.SaveOrder | app/api/lib/db.ts:76-94 | the insert succeeds exactly when the email is present, the amount binds as an INTEGER, email and session id fit VARCHAR(255) and the session id is new; it appends the serialized row under the next id, and the id is consumed whenever the amount binds, even when a constraint fails |
| Store.Db.SaveDownloadLink | app/api/lib/db.ts:97-113 | the grant is accepted exactly when its order exists and the plugin id and name fit VARCHAR(255); an accepted grant is appended with a zero count, a refused one changes nothing |
| Store.Db.GetOrdersByEmail | app/api/lib/db.ts:116-146 | returns the orders-by-email view of both tables: one view per order with that email, and as many views as such orders |
| Store.Db.GetMarketingSubscribers | app/api/lib/db.ts:163-177 | returns the subscriber list |
| Store.Db.IncrementDownloadCount | app/api/lib/db.ts:149-160 | the downloads table becomes the bumped table, and the orders are left alone |
| Store.Db.UpdateTapeBloomLicenseKey | app/api/orders/route.ts:39 | only the key column of that order changes, and the tables stay valid |
| Store.Db.UpdateOrderEmail | app/api/admin/update-email/route.ts:29-31 | renames every order whose lower-cased email is the old address and returns how many there were |
| Store.Db.DeleteDownloadsOf | app/api/regenerate-links/route.ts:38-41 | exactly the grants of that order are removed |
| Store.SameKeysValid | app/api/lib/db.ts:26-56 | rewriting non-key columns keeps the primary key, UNIQUE and foreign-key constraints |
| Grants.ExpiresAt | app/api/lib/orderProcessor.ts:72-73 | the expiry lies after the current time |
| Grants.GrantRows | app/api/lib/orderProcessor.ts:78-104 | the loop writes two grants per plugin |
| Grants.Links | app/api/lib/orderProcessor.ts:99-103 | the loop pushes one link per plugin |
| Grants.GrantRowsShape | app/api/lib/orderProcessor.ts:83-97 | plugin i owns rows 2i (its own id and name, macOS URL) and 2i+1 (`-windows` id, ` (Windows)` name, Windows URL), both with a zero count |
| Grants.GrantRowsOwner | app/api/lib/orderProcessor.ts:83-97 | every written grant belongs to the order and carries the shared expiry |
| Grants.LinksShape | app/api/lib/orderProcessor.ts:99-103 | link i names plugin i and carries the URLs of its two grants |
| Grants.Written | app/api/lib/orderProcessor.ts:78-104 | the rows that reach the table before the first failing insert: a prefix of the block, all fitting, stopping at a row that does not fit, and the whole block exactly when every row fits |
| Grants.GrantsFitRows | app/api/lib/orderProcessor.ts:83-97 | every row of the grant block fits its columns exactly when every plugin's id and name, with the Windows suffixes, fit |
| Grants.WrittenOwner | app/api/lib/orderProcessor.ts:83-97 | every grant that reaches the table belongs to the order, carries the shared expiry and a zero count |
| Grants.WritePluginGrants | app/api/lib/orderProcessor.ts:80-103 | one turn of the loop appends the written part of the plugin's two grants and returns its link exactly when both fit |
| Grants.LoopStops | app/api/lib/orderProcessor.ts:80-97 | a turn whose grants do not fit leaves the table with the written prefix of the whole block, and the block does not fit |
| Grants.WriteGrants | app/api/lib/orderProcessor.ts:78-104 | the loop appends exactly the written prefix of the grant block, returns the links exactly when every grant fits (an exception otherwise), and leaves the orders alone |
| Grants.RegrantOwn | app/api/regenerate-links/route.ts:37-58 | after delete-then-write, the order's grants are exactly the new block |
| Grants.RegrantOthers | app/api/regenerate-links/route.ts:37-58 | every other order keeps exactly the grants it had |
| Grants.FreshOrderGrants | app/api/lib/orderProcessor.ts:60-104 | a new order's grants are exactly the block just written |
| OrderProcessor.ProviderName | app/api/lib/orderProcessor.ts:9 | the stored provider is "stripe" or "paypal" |
| OrderProcessor.LicenseFor | app/api/lib/orderProcessor.ts:46-53 | a key is issued exactly when VocalFelt (id '7') is in the order, and it is a valid VocalFelt key and not a TapeBloom key |
| OrderProcessor.ProcessOrder | app/api/lib/orderProcessor.ts:33-137 | processOrder succeeds exactly when saveOrder accepts and every grant fits; it then returns the new id, the links and the license; the store becomes the saved row plus the written prefix of its grant block |
| OrderProcessor.DuplicateTransactionRejected | app/api/lib/orderProcessor.ts:60-68 | a second processOrder for a transaction already on file writes no order and no grant |
| OrderProcessor.ProcessedOrderGrants | app/api/lib/orderProcessor.ts:72-104 | after an accepted save, the new order's grants are exactly the written prefix of the block, and the whole block (two per plugin) when every grant fits |
| Download.DecodeToken | app/api/download/route.ts:19-27 | a decoded token yields two non-empty fields without ':' |
| Download.DecodeIssuedToken | app/api/download/route.ts:19-27 | round trip: a token made by generateSignedUrl decodes to the ids it was made from |
| Download.FindGrant | app/api/download/route.ts:30-44 | a grant is found exactly when some row of an existing order matches, and the found row is such a row |
| Download.Admit | app/api/download/route.ts:9-54 | a missing token gives 400; admission means the order exists and a matching grant has not expired; a 410 means the grant found for the token's own decoded ids has expired |
| Download.AdmitId | app/api/download/route.ts:30-54 | for decoded ids, admission names exactly those ids, and 410 is answered exactly when the id is a 32-bit integer whose grant exists and has expired |
| Download.HexOrderId | app/api/download/route.ts:34 | an order id field "0x…" is read as hexadecimal, so the grant looked up is that of the hex value; "0x" alone gives 500 |
| Download.FindFile | app/api/download/route.ts:74 | a file is found exactly when one has the platform, and it is the first such file |
| Download.Serve | app/api/download/route.ts:60-88 | every error is a 404; a redirect happens exactly when the plugin has installers and, when a platform is asked for, one of them is for it; the redirect is to one of the plugin's installers, of the asked platform, and the first one when none is asked for |
| Download.Redeem | app/api/download/route.ts:6-96 | the response and the new downloads table are the route's functions of the old tables; the count is bumped only when admitted, and the orders are untouched |
| Download.IssuedToken | app/api/download/route.ts:19-34 | an issued token decodes to the order's decimal id, which parseInt reads back |
| Download.AdmitDecoded | app/api/download/route.ts:30-54 | once the ids decode, only the lookup and the expiry decide: no grant gives 404 |
| Download.IssuedLinkAdmitted | app/api/download/route.ts:30-57 | a link for an existing order whose matching grants are all unexpired is admitted |
| Download.ExpiredLinkRefused | app/api/download/route.ts:49-54 | an expired grant gets 410 and its count is not bumped |
| Download.UnknownGrantNotFound | app/api/download/route.ts:39-44 | a token matching no grant gets 404 and changes nothing |
| Download.ServeCatalogued | app/api/download/route.ts:60-88 | a catalogued plugin redirects to the installer of the requested platform, or to the first one when no platform is given |
| Download.ServeUncatalogued | app/api/download/route.ts:60-66 | an uncatalogued id gets 404 "Plugin file not found" |
| Download.WindowsLinkBumpsMacRow | app/api/lib/orderProcessor.ts:80-97 | a Windows link's token names the bare plugin id, so redeeming it bumps the macOS grant and never the `-windows` one |
| FreeDownload.FreeSessionId | app/api/free-download/route.ts:65 | free session ids start with "free_" |
| FreeDownload.Screen | app/api/free-download/route.ts:23-53 | the request passes exactly when it is allowed, the email matches the pattern and the cart is a non-empty list, whatever its items hold; otherwise it gets 429 or 400 |
| FreeDownload.CartPlugins | app/api/free-download/route.ts:59-62 | the map gives one plugin per item, in order, exactly when every item has a readable `plugin` |
| FreeDownload.Claim | app/api/free-download/route.ts:10-141 | a refused request changes nothing; an item without a readable `plugin` gives 500 before anything is written; a failed insert (taken session id, too long an email) gives 500 and consumes an id; otherwise one zero-amount order and the written part of its grant block are stored, and the reply is the success reply exactly when every grant fits and the send call did not throw |
| FreeDownload.AcceptedEmailShape | app/api/free-download/route.ts:8 | an accepted email has no whitespace and exactly one '@', which is not its first character |
| Regenerate.Decide | app/api/regenerate-links/route.ts:7-31 | a missing or zero id gives 400, an unknown id gives 404, and a rewrite names an existing order and its parsed plugins |
| Regenerate.RegenerateLinks | app/api/regenerate-links/route.ts:5-72 | on rewrite, the order's grants are replaced by the written part of a new block with a new expiry, answering 500 when a grant does not fit; other grants and all orders stay |
| Regenerate.StoredPluginsRegenerate | app/api/regenerate-links/route.ts:30-31 | an order saved with a plugin list regenerates exactly that list |
| OrdersRoute.StoredPluginsDefault | app/api/orders/route.ts:34 | an empty plugins text is read as '[]' |
| OrdersRoute.TapeBloomKeyValid | app/lib/licenseGenerator.ts:59-66 | a generated TapeBloom key is valid for TapeBloom |
| OrdersRoute.Backfilled | app/api/orders/route.ts:30-46 | the returned list has one entry per order, each after its own turn of the loop |
| OrdersRoute.BackfilledKeys | app/api/orders/route.ts:30-46 | every TapeBloom order ends with a key; orders with a key or without TapeBloom come back unchanged; a new key is a valid TapeBloom key and changes only that field |
| OrdersRoute.Rekeyed | app/api/orders/route.ts:30-46 | the loop never adds or removes an order |
| OrdersRoute.RekeyedShape | app/api/orders/route.ts:38-40 | only the key column changes, always to a valid TapeBloom key |
| OrdersRoute.FillOne | app/api/orders/route.ts:31-44 | one turn stores a new key exactly when the order needs one |
| OrdersRoute.Backfill | app/api/orders/route.ts:30-46 | the loop returns the backfilled list and leaves the table re-keyed accordingly |
| OrdersRoute.ListOrders | app/api/orders/route.ts:5-59 | a missing email gives 400, an invalid one a different 400, and a valid one the backfilled orders with their count, which is the number of orders with that email |
| PayPal.CompressedPlugins | app/api/paypal/webhooks/route.ts:110-111 | compressed ids convert exactly when every id is a string or a number, one plugin per id, named through PLUGIN_NAMES by its text |
| PayPal.IdText | app/api/paypal/webhooks/route.ts:111 | a string id is itself and a numeric id its decimal text, which parseInt reads back |
| PayPal.LegacyEntry | app/api/lib/orderProcessor.ts:78-103 | a legacy entry is a plugin exactly when its `id` and `name` are strings or numbers, each read as its text |
| PayPal.LegacyList | app/api/paypal/webhooks/route.ts:113 | a legacy list converts exactly when every entry does, one plugin per entry in order |
| PayPal.LegacyNumericId | app/api/paypal/webhooks/route.ts:113 | a legacy entry with a numeric id is the plugin of its decimal text; `{id: 4, name: 'Tape Bloom'}` is TapeBloom "4" |
| PayPal.RelatedOrderId | app/api/paypal/webhooks/route.ts:64-69 | a related order id is never empty |
| PayPal.WebhookParams | app/api/paypal/webhooks/route.ts:104-135 | the processOrder arguments are PayPal's, under the PayPal order id, with the resource amount |
| PayPal.PlanCompleted | app/api/paypal/webhooks/route.ts:62-139 | a completed capture is processed only under its related order id, and only when that id is not yet on file |
| PayPal.PlanWebhook | app/api/paypal/webhooks/route.ts:7-163 | a 400 comes exactly from a signature check that answers false; one that throws is answered "received" and nothing is processed; processing needs an allowed, verified, completed-capture event for a new transaction |
| PayPal.Webhook | app/api/paypal/webhooks/route.ts:7-163 | the reply is "received" unless the signature fails; the store changes by one processOrder exactly when the plan processes |
| PayPal.CompressedMetadata | app/api/paypal/webhooks/route.ts:104-111 | compressed metadata: `e` is the email, `m` decides the opt-in through `=== 1`, and `p` names plugins through PLUGIN_NAMES |
| PayPal.PluginNames | app/api/paypal/webhooks/route.ts:94-101 | the table names TapeBloom and the bundle, and an unknown id gets "Plugin <id>" |
| PayPal.LegacyMetadata | app/api/paypal/webhooks/route.ts:104-114 | without compressed fields, the legacy email, opt-in and plugins decide |
| PayPal.WholeDollars | app/api/paypal/webhooks/route.ts:117 | parseInt keeps the whole dollars only, so "D.CC" becomes D*100 cents |
| PayPal.AmountCents | app/api/paypal/webhooks/route.ts:117 | a missing or falsy amount gives 0 cents, a numeric amount its value times 100, and every amount is a whole number of dollars |
| PayPal.MissingAmountIsZero | app/api/paypal/webhooks/route.ts:117 | an absent or empty amount gives a zero-cent order |
| PayPal.WebhookReplayIgnored | app/api/paypal/webhooks/route.ts:73-78 | a delivery for an order already on file is never processed again |
| PayPal.WebhookProcessesNewCapture | app/api/paypal/webhooks/route.ts:61-135 | a verified completed capture of a new order with readable metadata is processed with exactly those parameters |
| PayPal.OtherEventsOnlyLog | app/api/paypal/webhooks/route.ts:141-155 | every other event type only logs |
| PayPal.CaptureParams | app/api/paypal/capture-order/route.ts:72-95 | the capture's processOrder arguments are PayPal's, under the captured order id |
| PayPal.PlanCapture | app/api/paypal/capture-order/route.ts:6-95 | a refused rate limit gives 429; a body that does not parse, or is `null`, throws and gives 500; submission needs a string orderID and a COMPLETED capture |
| PayPal.Capture | app/api/paypal/capture-order/route.ts:6-111 | a stop changes nothing; a submission runs processOrder and answers its id, or 500 when processOrder throws |
| PayPal.CaptureIgnoresCompressed | app/api/paypal/capture-order/route.ts:71-72 | the capture route reads only the legacy fields, so compressed members do not affect it |
| PayPal.IncompleteCaptureRefused | app/api/paypal/capture-order/route.ts:47-54 | a capture not COMPLETED is refused with 400 before any metadata is read |
| Chart.DataMapDays | app/api/admin/chart-data/route.ts:27-35 | a day is in the map exactly when some query row names it |
| Chart.DataMapLast | app/api/admin/chart-data/route.ts:28-34 | the last row for a day decides its counts, with a missing revenue as 0 |
| Chart.Series | app/api/admin/chart-data/route.ts:37-50 | the series has 31 entries, entry i being day today-30+i with its counts or zeros |
| Chart.ChartData | app/api/admin/chart-data/route.ts:21-50 | the two loops compute exactly the series |
| Chart.SeriesDays | app/api/admin/chart-data/route.ts:22-41 | 31 consecutive, strictly increasing days that end today |
| Chart.AbsentDayIsZero | app/api/admin/chart-data/route.ts:43-49 | a day without orders is all zeros |
| Chart.PresentDayCarriesCounts | app/api/admin/chart-data/route.ts:43-49 | a day with orders carries that row's counts |
| Chart.EmptyTableAllZero | app/api/admin/chart-data/route.ts:20-50 | with no orders, every day is all zeros |
| Stats.EmptyTableNullCounts | app/api/admin/stats/route.ts:12-13 | on an empty table, the route as written answers null for freeDownloads and paidOrders |
| Stats.TotalsMeaning | app/api/admin/stats/route.ts:7-16 | with `\|\| 0` the counts are the free and paid orders, the revenue and downloads are sums, and subscribers ≤ customers ≤ orders |
| Stats.ProviderKeysExact | app/api/admin/stats/route.ts:19-27 | the breakdown has one row per provider value of some paid order |
| Stats.ProviderRowTotals | app/api/admin/stats/route.ts:19-27 | each row counts and sums exactly the paid orders of its provider, at least one |
| Stats.PluginPopularitySorted | app/api/admin/stats/route.ts:36-44 | the popularity list is sorted by count and names each plugin once |
| Stats.PluginPopularityMembers | app/api/admin/stats/route.ts:36-44 | every listed name is a non-Windows name with at least one order |
| Stats.PluginStatCount | app/api/admin/stats/route.ts:39 | a name that some grant carries has at least one distinct order |
| Stats.PluginPopularityCovers | app/api/admin/stats/route.ts:36-44 | every non-Windows grant's plugin name is listed |
| Stats.RecentOrdersShape | app/api/admin/stats/route.ts:47-62 | at most 50 orders, newest first, each a table order with its download total |
| Stats.RecentDownloadCount | app/api/admin/stats/route.ts:56-93 | an order without grants shows 0 downloads, and the provider is never empty |
| Stats.StatsReport | app/api/admin/stats/route.ts:5-99 | the report with the corrected totals: free and paid counts, revenue and order count as counted and summed, subscribers ≤ customers ≤ orders, one provider row per provider, popularity sorted, at most 50 recent orders newest first |
| TapeBloomRoute.Decide | app/api/admin/generate-tapebloom-license/route.ts:8-32 | a missing email or one without '@' gives 400, and a re-key needs such an email |
| TapeBloomRoute.GenerateTapeBloomLicense | app/api/admin/generate-tapebloom-license/route.ts:6-105 | a refusal changes nothing; a re-key stores a new key on the chosen order before the email is sent, and answers 500 if the send call throws |
| TapeBloomRoute.NewestIsLatestMatch | app/api/admin/generate-tapebloom-license/route.ts:18-25 | nothing is found exactly when no order matches; otherwise the pick is a matching order with the latest created_at |
| TapeBloomRoute.PurchaseFound | app/api/admin/generate-tapebloom-license/route.ts:18-32 | an order saved with TapeBloom is found for its email, so no 404 |
| TapeBloomRoute.ChosenOrderExists | app/api/admin/generate-tapebloom-license/route.ts:34 | the chosen order is a row of the table |
| TapeBloomRoute.RekeyOnlyTouchesChosenOrder | app/api/admin/generate-tapebloom-license/route.ts:40-44 | the new key lands on the chosen order, and every other order is unchanged |
| UpdateEmailRoute.Decide | app/api/admin/update-email/route.ts:8-29 | each invalid address gives its 400 in the source's order; a rename happens exactly when both are usable and their lower-cased forms differ, and both are lower-cased |
| UpdateEmailRoute.UpdateEmail | app/api/admin/update-email/route.ts:5-50 | the store is renamed as decided, matching stored emails case-insensitively; a zero count gives 404 quoting the address as sent; otherwise the reply gives the count |
| UpdateEmailRoute.RenamedAddressesUsable | app/api/admin/update-email/route.ts:29 | for any lower-casing that is idempotent and keeps '@', the lower-cased addresses still hold '@', still differ, and are already lower case |
| UpdateEmailRoute.RenameClearsOldAddress | app/api/admin/update-email/route.ts:29 | after a rename no order remains under the old address |
| UpdateEmailRoute.RenameMovesOrders | app/api/admin/update-email/route.ts:29-42 | every order of the old address moves to the new one, with none lost or duplicated |
| UpdateEmailRoute.NothingToRename | app/api/admin/update-email/route.ts:31-36 | when the 404 is answered, the store is unchanged |
| UpdateEmailRoute.RepeatedRenameNotFound | app/api/admin/update-email/route.ts:29-36 | repeating an accepted request finds nothing under the old address and answers 404 |
| Csv.Build | app/api/admin/export-emails/route.ts:62-65 | the `csv +=` loop builds exactly the document text |
| Csv.TerminatedIsJoin | app/api/admin/export-emails/route.ts:62-65 | ending every line in '\n' is joining the lines with an empty last part |
| Csv.DocumentLines | app/api/admin/export-emails/route.ts:62-65 | with no line break in a cell, the text splits into the header line, one line per row in order, and an empty rest |
| Csv.RowTextCells | app/api/admin/export-emails/route.ts:64 | round trip: when no cell holds ',', splitting a line and unquoting gives back the cells |
| ExportEmails.MaxTextIsMax | app/api/admin/export-emails/route.ts:32 | MAX(plugins) is at least every text of its group |
| ExportEmails.OptedInEmailsExact | app/api/admin/export-emails/route.ts:34-35 | a group exists exactly for each email of some opted-in order |
| ExportEmails.MarketingDistinct | app/api/admin/export-emails/route.ts:28-36 | the marketing export lists each email once |
| ExportEmails.MarketingMember | app/api/admin/export-emails/route.ts:28-36 | each line is the group row of an opted-in email, and each such email has one |
| ExportEmails.MarketingOneRowPerEmail | app/api/admin/export-emails/route.ts:26-37 | the marketing query is newest first, one line per email, and has exactly the opted-in emails with their group maxima |
| ExportEmails.TwoDigits | app/api/admin/export-emails/route.ts:54 | toFixed(2) writes two digits that read back as the cents |
| ExportEmails.AmountReadBack | app/api/admin/export-emails/route.ts:54 | a paid amount cell reads back as the cents it was written from |
| ExportEmails.FreeCells | app/api/admin/export-emails/route.ts:54-55 | the cells "FREE" and "Free" appear exactly for a zero amount |
| ExportEmails.SavedPluginNames | app/api/admin/export-emails/route.ts:51-53 | a stored plugin list shows its names in stored order, joined by "; " |
| ExportEmails.AllCells | app/api/admin/export-emails/route.ts:50-59 | the cells exist exactly when every row's plugins parse, one cell row per order row in order |
| ExportEmails.ExportEmailsRoute | app/api/admin/export-emails/route.ts:11-85 | a wrong or missing password gives 401; unparsable plugins give 500; otherwise the file is the CSV of the selected query, under the dated file name |
| ExportSubscribers.SubscriberCells | app/api/admin/export-subscribers/route.ts:11-14 | one cell row per subscriber, holding its email and formatted date |
| ExportSubscribers.ExportSubscribersRoute | app/api/admin/export-subscribers/route.ts:5-27 | the file is the CSV of the subscriber list, under the dated file name |
| ExportSubscribers.HeaderLine | app/api/admin/export-subscribers/route.ts:10 | the header line is "Email,Subscribed Date" |
| ExportSubscribers.OneLinePerSubscriber | app/api/admin/export-subscribers/route.ts:10-20 | with no line break in the data, the file has the header, then exactly one line per subscriber in order, holding its quoted email and date |
| Cart.CartState.constructor | app/page.tsx:15-16 | the cart starts empty and the notice closed |
| Cart.CartState.Add | app/page.tsx:18-23 | a plugin is appended only when its id is absent, the notice always opens, and ids stay unique |
| Cart.CartState.Remove | app/page.tsx:25-27 | the items with that id are filtered out, and ids stay unique |
| Cart.CartState.Clear | app/page.tsx:29-31 | the cart becomes empty |
| Cart.CartState.SwitchToBundle | app/page.tsx:33-44 | the paid plugins are removed and the bundle is added unless present, and ids stay unique |
| Cart.FilterKeepsUnique | app/page.tsx:26 | filtering keeps the ids unique |
| Cart.AddedKeepsUnique | app/page.tsx:18-23 | adding keeps each id at most once |
| Cart.SwitchedKeepsUnique | app/page.tsx:33-44 | switching keeps each id at most once |
| Cart.AddedMeaning | app/page.tsx:18-23 | adding a present plugin changes nothing, a new one goes last, and adding twice is adding once |
| Cart.RemovedMeaning | app/page.tsx:25-27 | exactly the items with that id are dropped, none remains, and removing twice is removing once |
| Cart.SwitchedMeaning | app/page.tsx:33-44 | no bundled plugin is left, every other item is kept, the bundle is present, and it is appended exactly when none was left |

## Left out

- Node's lenient decoding is not modelled: base64 that skips bad characters and UTF-8 that replaces bad bytes. The model's decoders are strict, so a malformed token gets 400 from `Download.Admit`.
- Emails sent through Resend appear only as whether `resend.emails.send` threw. In free-download and the TapeBloom route a send call that throws is a 500 after the writes; in processOrder it is ignored. The value a send returns is never inspected, so a send that resolves with an error still answers success. The message bodies are not modelled.
- The rate limiter (`app/api/lib/rateLimiter`) is not part of this model. Its answer is the `allowed` input.
- The PayPal API client (signature verification, capture, order details) is not part of this model. Its answers are inputs.
- The clock, randomness and the locale's date format are parameters. Each operation uses one `now`, where the source calls `Date.now()` once per URL.
- The expiry adds 3 × 86 400 000 ms. `setDate(getDate() + 3)` across a daylight-saving change is not modelled.
- Chart days are abstract day numbers. Time zones and the rendering of `toISOString().split('T')[0]` are not modelled.
- Ties in `ORDER BY ... DESC` and in `LIMIT 1` keep table order. Postgres leaves them unspecified. The same holds for the elements of `json_agg` in `getOrdersByEmail`, which has no ORDER BY: `Store.ViewOf` lists an order's grants in table order.
- The order of `GROUP BY` groups is not modelled. Groups appear in order of first occurrence, before any sort.
- `MAX(plugins)` and `ExportEmails.TextLeq` compare text by code point. The database collation is not modelled.
- `getOrderByTransactionId`, `updateTapeBloomLicenseKey` and `updateOrderEmail` are called by the routes but are not defined in `app/api/lib/db.ts`. `Store.FindSession`, `Store.Db.UpdateTapeBloomLicenseKey` and `Store.Db.UpdateOrderEmail` give them the meaning their call sites imply.
- `Store.Db.UpdateOrderEmail`: modelled as `UPDATE orders SET email = $2 WHERE LOWER(email) = $1`. The route passes lower-cased addresses while stored emails keep the case they were saved with, so this is the reading under which the route can rename an address saved with capitals. A plain `email = $1` would rename only rows saved in lower case; that reading is not modelled.
- `toLower`: `toLowerCase` with full Unicode case mapping is not modelled. The rename route and `Store.WithEmail` take the mapping as a parameter, and the model assumes JavaScript and Postgres use the same one. The route's properties need only that it is idempotent and keeps '@' (`Text.IsLowerCasing`); `Text.LowerAscii` is one such mapping (`Text.LowerAsciiIsLowerCasing`). Unicode mappings that take '@' into the expansion of another character, or that are not idempotent, are outside those lemmas.
- `Store.FitsColumn`: a VARCHAR(255) value longer than 255 characters is refused, as Postgres does, and the refused insert consumes its id like any other constraint failure. Postgres's truncation of a too-long value whose excess is all spaces is not modelled: such a value is refused.
- `Store.Db.SaveOrder` stores the license key and the payment provider, as the seven-argument call in `app/api/lib/orderProcessor.ts:60-68` implies. The `saveOrder` of `app/api/lib/db.ts:76-94` takes five parameters and inserts neither column.
- The `orders` route and the TapeBloom admin route read and write `tape_bloom_license_key`, and the stats route reads `license_key` and `payment_provider`. The `CREATE TABLE` in `app/api/lib/db.ts:26-35` has none of these columns, and the SELECT of `getOrdersByEmail` reads none of them. The model's order row has all three, as the call sites use them.
- `OrdersRoute.BackfilledKeys`: the model's `Store.ViewOf` carries each order's stored `tapeBloomKey`, so an order keyed once keeps its key. Against the SELECT of `getOrdersByEmail` as written (`app/api/lib/db.ts:118-124`), which reads no key column, `order.tape_bloom_license_key` is always undefined. Then every TapeBloom order is re-keyed on every GET of the orders route, and its stored key is overwritten each time. The clause "orders with a key come back unchanged" holds only for a SELECT that reads the key.
- `export-emails` selects a column `customer_email`, which the `orders` table does not define. The export is modelled over an abstract purchase record (`ExportEmails.Purchase`), so that mismatch is not reconciled.
- CSV cells are quoted but not escaped, as in the source. The round trip `Csv.RowTextCells` is proved only for cells without ','. The line structure (`Csv.DocumentLines`) is proved only for cells without a line break.
- Request bodies whose fields have the wrong JSON type appear as absent values (None). In the admin routes `email.includes` on a non-string throws and gives 500; the model answers 400.
- `FreeDownload.Claim`: a cart item whose `plugin` is an object with an `id` or `name` that is not a string is not modelled (`FreeDownload.Cart` holds only string plugins). The source saves the order with those values and throws at the first grant insert.
- `PLUGIN_NAMES` lookups of inherited object keys (such as `constructor`) are not modelled. Every id outside the table gets the fallback name.
- `PayPal.CompressedPlugins`: string and numeric ids of `p` are modelled; a numeric id becomes its decimal text (`PayPal.IdText`), as PLUGIN_NAMES indexing, the signed URL and the SQL parameter see it. The stored plugins text is not: `JSON.stringify` writes a numeric id as `"id":4`, the model as `"id":"4"`. So in the source a numeric TapeBloom id fails the orders route's `p.id === '4'` and the admin route's LIKE test, while in the model it passes both. processOrder's `plugin.id === '7'` test is strict too: a numeric 7 gets no VocalFelt license in the source, while the model issues one. The same holds for numeric ids and names in legacy lists (`PayPal.LegacyList`). Ids of other JSON types (null, booleans, objects) are not modelled; the model ignores such deliveries.
- `PayPal.LegacyList`: legacy entries whose `id` or `name` is missing or of another JSON type than string or number are not modelled. In the source processOrder goes ahead with `undefined` or `null` and throws at the first grant insert, after the order is saved; the model's plan is Ignore for them, and it does not model that partial processing. Members of an entry other than `id` and `name` are dropped, while `JSON.stringify` would keep them in the stored plugins text.
- A capture and a webhook for the same PayPal order can race in the source. The model runs operations one at a time, so the UNIQUE session id rejects the second of them.
- SQL errors other than the constraint violations that are modelled (a lost connection, a timeout) are not modelled.
- `Regenerate.Decide`: an order id that is not an integer (a string in the JSON body) is not modelled. The route receives `Option<int>`.
- The discount code is read from PayPal metadata and passed to processOrder, which never uses it. The model drops it.
- The cart models only a plugin's `id` and `name`. The page's modal state and other plugin fields are not modelled.
- `Cart.CartState.SwitchToBundle` requires the bundle item to have id "bundle", as the page's bundle does. The handler itself does not check this.
- `middleware.ts`, the Stripe webhook, the checkout-session, support, donation, get-session and get-order-details routes, the upload and maintenance scripts, and the React pages other than the cart handlers are not part of this model.
- `TapeBloomRoute.PurchaseFound`: only the forward direction of the `LIKE '%"id":"4"%'` test is proved, that a stored list holding TapeBloom matches. A list can also match through a plugin name containing that text, and that direction is not characterised.
- The stats route's `marketingSubscribers` counts distinct opted-in emails, using `COUNT(DISTINCT CASE ... END)`. The model takes this from the opted-in email list.

## Findings

| source | as written | input that shows it | evidently intended | confidence | as-written member | corrected member |
|---|---|---|---|---|---|---|
| app/api/admin/stats/route.ts:68-69 | `freeDownloads` and `paidOrders` are `parseInt` of a `SUM(CASE ...)` with no `\|\| 0`, unlike every other aggregate of the route | an empty `orders` table: SUM over no rows is NULL, `parseInt(null)` is NaN, and NaN is sent as null | `\|\| 0` on both, so an empty shop reports 0 free downloads and 0 paid orders | not executed | Stats.EmptyTableNullCounts | Stats.TotalsMeaning |
