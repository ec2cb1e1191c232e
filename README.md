# SmartNegotiator rules, modelled in Dafny

SmartNegotiator is a small shop with a chat assistant, "Kiki Bot". It has a
Streamlit front end and a MySQL back end. Under the UI and the database calls
sits a set of deterministic rules, and this project models them and proves
what they promise:

- **`NegotiationService`** (`negotiation.dfy`). Covers:
  - the stock-tiered offer: more than 15 in stock gives 10% off, 6 to 15 gives 5% off, anything else no discount;
  - the lower-cased substring classifiers for greetings and negotiation requests;
  - the greeting and negotiation replies.
- **`SecurityManager` and `Config`** (`security.dfy`). Covers:
  - the e-mail and Indian mobile-number patterns. Each check is stated as a character-class reading and proved equal to what the anchored regular expression accepts, a full match optionally followed by one final newline, because `$` matches just before a trailing newline;
  - `sanitize_input`;
  - the ordered list of LLM providers whose keys are set.
- **The retrieval pipeline** (`retrieval.dfy`). It covers:
  - scoring each product whose stored embedding parses;
  - a stable descending sort;
  - `scored[:k]`;
  - the answer sentence;
  - the ordered chain of LLM providers;
  - API-key lookup;
  - the embedding rebuild.
- **`ProductService`'s cart and orders** (`cart.dfy`). The tables are in-memory sequences inside a `Shop` class, and the model covers:
  - add-to-cart with its three checks;
  - scoped removal and clearing;
  - the cart total;
  - placing an order.
- **`UserService`** (`users.dfy`). The users table is a `UserStore` class, and the model covers:
  - registration with its checks in order;
  - authentication that drops the secret columns;
  - profile updates, built into an `UPDATE ... SET` statement and its parameter list.
- **The chat page** (`chat.dfy`). Covers:
  - language detection over the Telugu block;
  - translation with its identity cases;
  - the reply chain for a prompt: greeting, then negotiation on a selected product, then retrieval;
  - the two-entry append to the session.

`text.dfy` holds the Python string and number behaviour the rules rely on:
- `lower`/`upper`;
- `in` on strings;
- `strip`;
- slicing with a negative bound;
- `re.sub` of a character class;
- `replace`;
- `str` of integers, floats and two-place decimals.

`catalog.dfy` holds the products table and the lookup by id.

Prices are whole paise. `round(x, 2)` is rounding half up on exact paise.
Strings are sequences of code points. The chat page's literals keep the characters its source
file actually holds: the UTF-8 bytes of its emoji, read as Windows-1252.

## Model

| member | source | states |
|---|---|---|
| Text.Lower | backend/conversation_service.py:123 | the lower-cased text has the same length, and each character is the ASCII lower case of the original |
| Text.Upper | backend/rag_engine.py:23 | the upper-cased text has the same length, and each character is the ASCII upper case of the original |
| Text.ContainsIff | backend/conversation_service.py:124 | the left-to-right search `pat in s` succeeds exactly when `pat` occurs at some position of `s` |
| Text.ContainsAnyIff | backend/conversation_service.py:124 | `any(k in s for k in ks)` holds exactly when one of the patterns occurs at some position of `s` |
| Text.RemoveAll | backend/config.py:134 | removing a character class leaves none of its characters, keeps every other character that was present, and never lengthens the text |
| Text.RemoveAllAppend | backend/config.py:134 | removing a character class from a concatenation is removing it from each part |
| Text.RemoveAllOne | backend/config.py:134 | a single character is dropped exactly when it is in the class |
| Text.PyPrefix | backend/config.py:135 | `s[:k]` keeps `min(k, len)` elements for `k >= 0` and drops `-k` from the end for a negative `k` |
| Text.Strip | backend/config.py:135 | the stripped text has no whitespace at either end, is a slice starting right after the leading whitespace, and only whitespace was cut after it |
| Text.StripTrimmed | backend/config.py:135 | stripping a text without surrounding whitespace gives it back unchanged |
| Text.Replace | backend/rag_engine.py:212 | a text in which the target does not occur comes back unchanged; a replacement as long as the target keeps the length; with a one-character target and replacement, every occurrence of the target character becomes the replacement character and every other character is kept |
| Text.Join | backend/user_service.py:137 | joining no parts gives "", one part gives that part, and a join starts with its first part |
| Text.JoinAppend | backend/user_service.py:137 | joining two non-empty lists is joining each with the separator between them |
| Text.NatText | backend/product_service.py:60 | `str` of a natural number is a non-empty run of digits, without a leading zero unless it is "0", whose decimal value is the number |
| Text.IntText | backend/product_service.py:60 | `str` of an integer is a minus sign exactly when it is negative, followed by digits whose decimal value is its magnitude |
| Text.FloatText | backend/conversation_service.py:96-106 | the text of a price of `paise / 100` is the sign, the digits of the whole rupees, a point, and the shortest one- or two-digit fraction that writes the remaining paise |
| Text.DecimalText | backend/rag_engine.py:86 | the text of a two-place DECIMAL is the sign, the digits of the whole rupees, a point, and exactly two digits whose value is the remaining paise |
| Catalog.FindProduct | backend/product_service.py:22-31 | the lookup returns a row of the table with the asked id, and returns nothing exactly when no row has that id |
| Negotiation.RoundShare | backend/conversation_service.py:94 | the rounded share is within half a paisa of the exact `price * pct / 100` |
| Negotiation.RoundShareAtMost | backend/conversation_service.py:92-101 | for a non-negative price, a share of at most 100% lies between 0 and the price |
| Negotiation.RoundShareMonotone | backend/conversation_service.py:92-101 | a larger percentage never gives a smaller rounded share |
| Negotiation.CalculateOffer | backend/conversation_service.py:86-114 | original price kept; discount in {0, 5, 10}; can-negotiate iff discount > 0 iff stock > 5; offer within half a paisa of the discounted price; no discount means offer == price; for a non-negative price, 0 <= offer <= original; the message is "Great stock available! I can offer ₹<offer> (10% off the MRP of ₹<price>)" at 10%, "Limited stock available. I can offer ₹<offer> (5% off the MRP of ₹<price>)" at 5% and "Very limited stock. Best price: ₹<price> (MRP)" otherwise, with prices as Python prints floats |
| Negotiation.OfferTiers | backend/conversation_service.py:92-106 | the three tiers are exhaustive and disjoint: stock > 15 gives 10% at the 90% share, 5 < stock <= 15 gives 5% at the 95% share, anything else (0 and negatives too) gives the price itself with no discount |
| Negotiation.OfferMonotoneInStock | backend/conversation_service.py:92-114 | more stock never lowers the discount, nor (for a non-negative price) raises the offer price |
| Negotiation.IsNegotiationRequest | backend/conversation_service.py:116-124 | a message is a negotiation request exactly when one of the eleven keywords occurs somewhere in its lower-cased text |
| Negotiation.IsGreeting | backend/conversation_service.py:126-134 | a message is a greeting exactly when one of the nine greetings occurs somewhere in its lower-cased text |
| Negotiation.NegotiationKeywordAnywhere | backend/conversation_service.py:116-124 | any of the eleven keywords, in any mix of cases, anywhere in a message makes it a negotiation request |
| Negotiation.GreetingAnywhere | backend/conversation_service.py:126-134 | any of the nine greetings, in any mix of cases, anywhere in a message makes it a greeting |
| Negotiation.SubstringFalsePositives | backend/conversation_service.py:119-134 | "this" and "SHIP" are greetings through "hi", and "that was useless" is a negotiation request through "less" |
| Negotiation.UserName | backend/conversation_service.py:140 | the name is the prefix of the address up to its first '@', and the whole address when it has none |
| Negotiation.GenerateGreetingResponse | backend/conversation_service.py:136-141 | the greeting is "Hey ", then the part of the address before its first '@' (the whole address when it has none), then the fixed invitation |
| Negotiation.GreetingUsesLocalPart | backend/conversation_service.py:136-141 | for `local@domain`, the greeting says "Hey local! ..."; an address without '@' is used whole |
| Negotiation.ProcessNegotiationRequest | backend/conversation_service.py:143-158 | a missing product gives the fixed "couldn't find" reply; otherwise the robot prefix plus the offer message for the product's price and stock; a NULL stock gives the apology carrying the `int(None)` error |
| Security.EmailShapeMatches | backend/config.py:116 | the left-to-right reading (local part to the first '@', the last '.' followed by two or more letters) accepts exactly the strings the pattern matches in full, for some split |
| Security.EmailReadingSound | backend/config.py:113-117 | every string the reading accepts is a full match of the pattern, optionally followed by one final newline |
| Security.EmailReadingComplete | backend/config.py:113-117 | every full match, with or without one final newline, is accepted by the reading |
| Security.EmailReadingIff | backend/config.py:113-117 | the reading accepts exactly what the anchored pattern with `$` accepts |
| Security.ValidateEmail | backend/config.py:113-117 | `validate_email` is true exactly when the address is a full match of the pattern, optionally followed by one final newline |
| Security.ValidEmailHasOneAt | backend/config.py:113-117 | a valid address holds exactly one '@', with a non-empty local part before it |
| Security.PhoneReadingSound | backend/config.py:119-125 | every number the reading accepts is an optional "+91", ten digits starting 6-9, and an optional final newline |
| Security.PhoneReadingComplete | backend/config.py:119-125 | every string of that form is accepted by the reading |
| Security.PhoneReadingIff | backend/config.py:119-125 | the reading accepts exactly the strings of that form |
| Security.ValidatePhone | backend/config.py:119-125 | `validate_phone` is true exactly when the number is an optional "+91", ten digits starting 6-9, and an optional final newline |
| Security.SanitizeInput | backend/config.py:127-135 | the result contains no '<' or '>', is at most `max_length` long for a non-negative bound, has no surrounding whitespace, and is "" for None or ""; it is a contiguous window of the bracket-free text cut to `max_length`, with only whitespace on either side of the window |
| Security.StripWindow | backend/config.py:135 | `strip` returns the window that starts after the leading whitespace and has only whitespace after it |
| Security.SanitizeWindowStart | backend/config.py:127-135 | a non-empty result's window is unique: it starts right after the leading whitespace of the cut text |
| Security.SanitizeKeepsClean | backend/config.py:127-135 | clean, short enough and trimmed text is returned unchanged |
| Security.SanitizeIdempotent | backend/config.py:127-135 | sanitising twice with the same bound is sanitising once |
| Security.SanitizeRemovesBeforeCut | backend/config.py:134-135 | brackets are removed before the cut: "<<ab" cut to 2 gives "ab" |
| Security.SanitizeStripsAfterCut | backend/config.py:134-135 | the strip follows the cut: "ab  c" cut to 3 gives "ab" |
| Security.ConfiguredProvidersSpec | backend/config.py:156-166 | for candidates with distinct names, the configured list is the candidates' names in their order with some left out, and it holds a name exactly when that candidate's key is set |
| Security.GetAvailableLlmProviders | backend/config.py:156-166 | the conditional appends give the ordered filter, and "openai", "gemini" and "anthropic" are each listed iff their key is set |
| Retrieval.CosineSim | backend/rag_engine.py:42-47 | 0.0 when either vector has zero norm, so there is never a division by zero; an error only for nonzero vectors of different lengths; otherwise the abstract angle |
| Retrieval.Score | backend/rag_engine.py:63-65 | a row without an embedding, or whose stored embedding does not parse, has no score; otherwise its score is the cosine similarity with the query |
| Retrieval.ScoredRows | backend/rag_engine.py:61-68 | the scoring loop never yields more pairs than there are rows |
| Retrieval.ScoreStep | backend/rag_engine.py:63-68 | one row contributes nothing exactly when parsing or comparing fails, and otherwise one pair of its score and the row |
| Retrieval.ScoredRowsSound | backend/rag_engine.py:62-68 | every scored pair comes from an input row and carries that row's own score |
| Retrieval.ScoredRowsCount | backend/rag_engine.py:62-68 | a row that scores is kept exactly as often as it occurs, and any other row is dropped |
| Retrieval.SortDescSpec | backend/rag_engine.py:69 | the sort is non-increasing by score, a permutation, and stable: the pairs of each score keep their input order |
| Retrieval.SortDesc | backend/rag_engine.py:69 | the sort keeps the number of pairs |
| Retrieval.ScoreProducts | backend/rag_engine.py:58-71 | the scoring loop followed by the sort yields a non-increasing permutation of the scored rows |
| Retrieval.SelectTopK | backend/rag_engine.py:73-78 | `scored[:k]` is a prefix of the list, of length min(k, len) for k >= 0 and len + k (at least 0) for a negative k |
| Retrieval.TopKSpec | backend/rag_engine.py:73-78 | for k >= 0 the top list is the prefix of length min(k, len); no cut-off pair outscores a kept one; the list is empty exactly when nothing scored, k is 0, or a negative k cuts everything |
| Retrieval.FormatAnswer | backend/rag_engine.py:80-87 | the fixed no-match sentence appears exactly for an empty list; otherwise the answer describes the first pair's product |
| Retrieval.Describe | backend/rag_engine.py:86 | the answer sentence is exactly the product's name, " price ₹", the text of its price, " — " and its description |
| Retrieval.WithEmbedding | backend/rag_engine.py:49-56 | the fetched rows are exactly the products with a non-NULL embedding |
| Retrieval.RagAnswer | backend/rag_engine.py:161-190 | the pipeline returns a dictionary whose only key is "answer", holding embed, fetch, score, top-k and format applied in that order |
| Retrieval.TopRowsScored | backend/rag_engine.py:62-76 | every pair kept in the top list carries a row that was fetched |
| Retrieval.RagAnswerText | backend/rag_engine.py:161-190 | the answer is the no-match sentence or describes a product of the table that has an embedding |
| Retrieval.SortedHeadIsBest | backend/rag_engine.py:69-86 | the head of the sorted list is an input row with its own score, and no scoring row scores higher |
| Retrieval.RagAnswerBest | backend/rag_engine.py:161-190 | an answer other than the no-match sentence describes a table product of maximum score; when some product scores and k > 0 the answer is never the no-match sentence |
| Retrieval.GetApiKey | backend/rag_engine.py:21-26 | raises exactly when the key is required and not set; otherwise returns the variable's value (None when unset) |
| Retrieval.ServiceNameRoundTrip | backend/rag_engine.py:212 | lower-casing `NAME_API_KEY`, dropping "_api_key" and upper-casing again reads the same variable |
| Retrieval.ProviderKeyNames | backend/rag_engine.py:205-212 | each of the three providers' keys is read from its own variable |
| Retrieval.ProviderChainSpec | backend/rag_engine.py:211-219 | the error dictionary is returned exactly when no provider has a key and answers; otherwise the answer comes from the first provider in order that does |
| Retrieval.ProviderChain | backend/rag_engine.py:211-219 | the result has the single key "error" or the single key "answer", and the error is the fixed no-key message |
| Retrieval.TryProviders | backend/rag_engine.py:211-219 | the provider loop with early return computes that chain |
| Retrieval.RagAnswerWithLlm | backend/rag_engine.py:193-222 | without `use_llm` the result is `rag_answer`'s; with it, the base answer goes through the chain openai, gemini, anthropic |
| Retrieval.SetEmbedding | backend/rag_engine.py:102 | the rows with the id get the new embedding, and every other row is unchanged |
| Retrieval.RebuildAllProductEmbeddings | backend/rag_engine.py:89-109 | every product gets the embedding of "{name} Price {price} Description {description}", nothing else changes, and the count is the number of products |
| Retrieval.DocumentText | backend/rag_engine.py:97 | the text embedded for a product is exactly its name, " Price ", the text of its price, " Description " and its description |
| Cart.AddCheckOrder | backend/product_service.py:48-61 | the checks pass iff the product exists with quantity > 0 and stock >= quantity; a missing product is reported first, whatever the quantity; a bad quantity is reported before any stock problem; a stock s below the quantity gives "Insufficient stock. Available: s"; a NULL stock gives the TypeError text the handler at line 86 prints |
| Cart.AddCheck | backend/product_service.py:47-61 | a passing check yields a row of the products table with the asked id, a positive quantity and a stock that covers it |
| Cart.AfterAdd | backend/product_service.py:63-80 | the next row id stays when an existing row is updated, with the row count unchanged; it advances by one when exactly one new row with the product's name and price is appended |
| Cart.FirstMatch | backend/product_service.py:64-67 | the row found is the first of this user for this product, or none exists |
| Cart.SetQuantity | backend/product_service.py:70-71 | the update changes the quantity of the rows with the id and nothing else |
| Cart.AddRaisesQuantity | backend/product_service.py:63-80 | a successful add raises this user's quantity of the product by the amount asked and leaves every other (user, product) pair as it was |
| Cart.AddMergesOrAppends | backend/product_service.py:63-80 | an existing (user, product) row keeps the row count; otherwise exactly one row with the product's current name and price is appended |
| Cart.AddKeepsOneRowPerPair | backend/product_service.py:63-80 | adding keeps at most one row per (user, product) pair |
| Cart.StockCheckIgnoresCart | backend/product_service.py:59-71 | with one in stock and one already in the cart, adding one more passes the check and the cart then holds two |
| Cart.WithoutItem | backend/product_service.py:110 | a row survives the delete exactly when it does not match both the id and the user |
| Cart.WithoutUser | backend/product_service.py:121 | a row survives the clear exactly when it belongs to another user |
| Cart.RemoveScopedToUser | backend/product_service.py:106-115 | exactly the rows matching both the id and the user are deleted; another user's rows are untouched |
| Cart.ClearScopedToUser | backend/product_service.py:117-126 | after clearing, the user has no rows and every other user keeps theirs, in order |
| Cart.Joined | backend/product_service.py:96-97 | the join keeps exactly the cart rows whose product id is in the products table, never adding rows |
| Cart.ItemsOf | backend/product_service.py:94-99 | one item per joined row, newest first, with the cart row's own price and quantity |
| Cart.CartItems | backend/product_service.py:89-104 | the cart page lists at most one item per cart row of the user |
| Cart.CartTotalAppend | backend/product_service.py:131 | the total of two item lists is the sum of their totals |
| Cart.CartTotal | backend/product_service.py:128-131 | an empty list totals 0, and non-negative prices and quantities give a non-negative total |
| Cart.CartTotalBounds | backend/product_service.py:128-131 | an empty cart totals 0; non-negative prices and quantities give a non-negative total; an item without a quantity counts once |
| Cart.TotalText | backend/product_service.py:131-146 | the total shown for an empty order is the integer sum "0"; any other total is shown as the float text of the paise total, which has a point |
| Cart.ItemsOfTotal | backend/product_service.py:128-131 | the total over a user's listed items is the sum of price times quantity over their rows |
| Cart.OrderFromOwnCart | backend/product_service.py:89-151 | the order total over the user's listed cart is the sum of price times quantity over their rows whose product still exists; afterwards the user has no rows and other users keep theirs |
| Cart.Shop.AddToCart | backend/product_service.py:43-87 | succeeds iff the checks pass; a failure reports the check's message and changes nothing; a success merges or appends as above; the products and orders are untouched; ids stay unique |
| Cart.Shop.RemoveFromCart | backend/product_service.py:106-115 | the cart loses exactly the user's row with that id; nothing else changes |
| Cart.Shop.ClearCart | backend/product_service.py:117-126 | the cart loses exactly that user's rows; nothing else changes |
| Cart.Shop.PlaceOrder | backend/product_service.py:133-151 | one order with the items' total is appended; the user's cart is cleared; the success notice shows the total |
| Users.FirstMissing | backend/user_service.py:43-47 | nothing is missing exactly when every listed field is filled, and a reported field is listed and unfilled |
| Users.RequiredFilledIff | backend/user_service.py:43-47 | the required-field loop finds nothing exactly when all six fields are filled |
| Users.FirstMissingIsFirst | backend/user_service.py:44-47 | the field reported is the first unfilled one in the list's order |
| Users.TitleFrom | backend/user_service.py:46 | title-casing keeps the length and which characters are letters, keeps every non-letter as it is, and capitalises a leading letter |
| Users.TitleFromChars | backend/user_service.py:46 | each character is upper-cased when it starts a run of letters and lower-cased when it follows a letter, as `str.title` does |
| Users.Label | backend/user_service.py:46 | `field.replace('_', ' ').title()` keeps the key's length, leaves no underscore, puts a space wherever the key had an underscore, and has a letter exactly where the key has one |
| Users.LabelShape | backend/user_service.py:46 | the label of a key without an underscore keeps its length and starts with a capital |
| Users.LabelOfTwoWords | backend/user_service.py:46 | the label of a key made of two lower-case words joined by an underscore is the two words, each capitalised, joined by one space |
| Users.LabelFirstName | backend/user_service.py:46 | the label of `first_name` is "First Name", so its missing-field message reads "First Name is required" |
| Users.LabelLastName | backend/user_service.py:46 | the label of `last_name` is "Last Name", so its missing-field message reads "Last Name is required" |
| Users.TitleTwoWords | backend/user_service.py:46 | `str.title` of two lower-case words joined by a space upper-cases the first letter of each word and keeps the rest |
| Users.UnderscoreToSpace | backend/user_service.py:46 | replacing '_' by ' ' in two lower-case words joined by an underscore gives the same words joined by a space |
| Users.AsRow | backend/user_service.py:17-21 | the row read back has exactly the table's ten columns |
| Users.NewUser | backend/user_service.py:71-85 | names and username are stored as `sanitize_input` of the submitted value with bound 255, address with 500 and pincode with 10 (absent ones as ""), so all five are bounded and bracket-free; email and phone are stored verbatim; the password is stored only as its hash under the salt |
| Users.RegisterCheckOrder | backend/user_service.py:38-99 | the first empty required field is reported first, then the email format, then the phone format, then a clash of email or username; registration succeeds exactly when all pass |
| Users.RegisterOutcome | backend/user_service.py:38-99 | a success means every required field is filled, the email and phone are valid, neither email nor username is taken, and the row is the sanitised new user; a missing field is reported as "<Label> is required" |
| Users.RawUsernameCheck | backend/user_service.py:60-78 | under exact text comparison, the clash check uses the username before sanitising: with `u` stored, `u + " "` passes, and the new row also holds `u` |
| Users.FirstWithEmail | backend/user_service.py:21-26 | the row found is the first with that email, or none has it |
| Users.AuthenticateUser | backend/user_service.py:8-36 | a row is returned iff the sanitised email is valid, a row has it, and the password verifies against that row; the result is the row minus exactly the secret columns |
| Users.AuthenticateHidesSecrets | backend/user_service.py:29 | a successful login returns neither the password hash nor the salt, and returns every other column |
| Users.Lookup | backend/user_service.py:120-124 | a key is found exactly when some pair has it, and the value found is paired with it |
| Users.UpdateCheck | backend/user_service.py:119-126 | an invalid supplied email is reported first; an invalid supplied phone is reported only when any supplied email is valid; nothing else is reported |
| Users.SanitizeUpdate | backend/user_service.py:130-134 | a key spelled exactly as one of the five profile keys gets `sanitize_input` with bound 500 for "address" and 255 otherwise, so it is bracket-free, trimmed and bounded; any other spelling passes through unchanged |
| Users.SanitizedUpdates | backend/user_service.py:129-134 | each key keeps its place and gets its sanitised value |
| Users.Assignments | backend/user_service.py:137 | there is one "k = %s" per key, in order |
| Users.UpdateQuery | backend/user_service.py:137-140 | the statement is exactly "UPDATE users SET ", the assignments joined by ", ", and " WHERE email = %s" |
| Users.Params | backend/user_service.py:138 | the parameters are the values in order followed by the email |
| Users.SetClauseCons | backend/user_service.py:137 | the SET clause is the first assignment, then ", " and the rest's clause |
| Users.TrimBlanks | backend/user_service.py:137-141 | the key with its blanks cut has no blank at either end, and a key without surrounding blanks is kept as it is |
| Users.FindColumn | backend/user_service.py:137-141 | a column is found only if it is listed under that name, and none is found exactly when no listed column has the name |
| Users.ColumnOf | backend/user_service.py:137-141 | a key names a column of the users table exactly when its blank-trimmed, lower-cased spelling is that column's name |
| Users.FirstNameKeyColumn | backend/user_service.py:131 | the key "first_name" names the first-name column |
| Users.UpperCaseKeyNamesColumn | backend/user_service.py:131-137 | "FIRST_NAME" names the first-name column but is not one of the five profile keys |
| Users.SetColumn | backend/user_service.py:140-141 | writing through a key changes the column the key names and no other, and a key that names no column changes nothing |
| Users.LastWriter | backend/user_service.py:137-141 | the index found is the last pair whose key names the column, or -1 when no key names it |
| Users.ApplyUpdate | backend/user_service.py:140-141 | exactly the rows with the email are overwritten |
| Users.OverwriteColumns | backend/user_service.py:140-141 | a column holds the value of the last pair whose key names it, and a column no key names keeps its value |
| Users.SameKeysLastWriter | backend/user_service.py:129-137 | lists with the same keys in the same order have the same last writer for every column |
| Users.SanitizeUpdates | backend/user_service.py:128-134 | the sanitising loop yields the sanitised pairs |
| Users.UpdateWritesSanitised | backend/user_service.py:128-141 | after an update, each column holds the value of the last submitted key that names it, sanitised as that key's own spelling decides, and a column no key names keeps its value |
| Users.VariantKeySkipsSanitiser | backend/user_service.py:129-141 | a key that names a column but is not spelled as a profile key is executed and stores its value unsanitised |
| Users.UpperCaseKeyStoresRaw | backend/user_service.py:129-141 | an update with the key "FIRST_NAME" runs and stores the raw value, brackets and all, as the first name |
| Users.UserStore.RegisterUser | backend/user_service.py:38-99 | succeeds iff the checks pass, appending the sanitised row with a fresh id; otherwise reports the first failing check and leaves the table unchanged |
| Users.UserStore.UpdateUserProfile | backend/user_service.py:116-148 | a rejected email or phone changes nothing; otherwise the query and parameters are built from the sanitised pairs; rows with the email are overwritten when the database accepts the statement, and the failure is reported when it does not |
| Chat.HasTelugu | streamlit_app.py:29 | true exactly when some character lies in U+0C00..U+0C7F |
| Chat.DetectLanguage | streamlit_app.py:28-31 | the result is "te" or "en", and it is "te" exactly when some character is Telugu |
| Chat.DetectLanguageAppend | streamlit_app.py:28-31 | a text is Telugu iff either of its parts is |
| Chat.TranslateText | streamlit_app.py:33-39 | the text comes back unchanged when the languages are equal or the translator fails; any changed result is the translator's answer |
| Chat.ChatGreeting | streamlit_app.py:197 | the greeting reply starts with the robot prefix, then "Hey " and the user's email |
| Chat.NegotiationReply | streamlit_app.py:200-218 | a missing product gives the fixed "Product not found." reply, a stock of 5 or less (NULL counted as 0) the fixed refusal, and every reply starts with the robot prefix |
| Chat.ChatReply | streamlit_app.py:194-239 | every reply is a message starting with the robot prefix, or the retrieval answer passed on unchanged when nothing raised and no error came back |
| Chat.ChatBranches | streamlit_app.py:194-219 | a greeting word wins whatever product is selected and whatever the backend holds; negotiation needs a selected product and a keyword; everything else goes to retrieval |
| Chat.ChatTierAgreesWithOffer | streamlit_app.py:206-216 | the page's tier rule, with a NULL stock counted as 0, quotes `calculate_offer`'s offer price exactly when the service would negotiate, and otherwise refuses |
| Chat.ChatWordsInService | streamlit_app.py:195-198 | whatever the page treats as a greeting or a negotiation request, the service does too |
| Chat.ChatIgnoresDeal | streamlit_app.py:198 | "deal" is a negotiation request for the service but not for the page |
| Chat.NoKeysPlainAnswer | streamlit_app.py:222-237 | with no provider key the reply is the plain retrieval answer |
| Chat.KeysProviderAnswer | streamlit_app.py:222-237 | with a key set the reply is the first answering provider's text, or the robot prefix plus the fixed error when none answers |
| Chat.UseLlmIffConfigured | streamlit_app.py:222-227 | the page's key test holds exactly when the configured provider list is non-empty |
| Chat.ChatSession.constructor | streamlit_app.py:178-179 | a new session has no messages |
| Chat.ChatSession.HandlePrompt | streamlit_app.py:185-246 | a non-empty prompt appends exactly two entries, the user's prompt and then the assistant's chosen reply; an empty prompt appends nothing |

## Left out

- Database access is out: MySQL connections, pooling, transactions and the exceptions they raise. The tables are in-memory sequences, and an unordered `SELECT` returns rows in table order.
- Negotiation.RoundShare: rounds half up on exact paise. Python's `round` on binary floats (ties to even, representation error) is not modelled.
- Cart.CartTotal: the total is exact integer paise, not a float sum.
- Text.FloatText: renders a float's `repr` only for values with two fraction digits or fewer.
- Text.Lower: folds only ASCII letters.
- Text.Upper: folds only ASCII letters.
- Users.TitleFrom: title-cases only ASCII letters.
- Security.ValidatePhone: takes `\d` as the ASCII digits, whereas Python's `re` also accepts other Unicode decimal digits.
- Retrieval.CosineSim: the numeric cosine is an abstract `angle` parameter. A norm that is zero only through floating-point underflow is not modelled.
- Retrieval.Describe: assumes the price column is a two-place DECIMAL.
- Retrieval.DocumentText: assumes the price column is a two-place DECIMAL.
- External services are parameters. These are:
  - the sentence-embedding model (`embed`);
  - JSON parsing of a stored embedding (`parse`);
  - `json.dumps` (`dumps`);
  - the provider calls of `_call_llm_provider` (`call`);
  - the translator;
  - PBKDF2 hashing and verification (`kdf`, `verify`);
  - the random salt.
- An exception escaping the chat page's retrieval branch is given as its text (`failure`).
- The database's message when it refuses an update is given as `dbError`.
- Retrieval.RebuildAllProductEmbeddings: requires distinct product ids, the primary key.
- Users.UserStore.UpdateUserProfile: the database is taken to refuse a statement when it has no assignment, or when a key, blank-trimmed and lower-cased, is not the name of a users column. Column type and length errors are not modelled.
- Users.ColumnOf: a key is read as one bare column name. A key carrying further SQL (a second assignment, backquotes, a comment) is treated as refused, although MySQL may run such a statement. Identifier case is folded for ASCII letters only.
- Text comparisons in SQL are exact, as under a binary collation. MySQL's default collations compare without case and ignore trailing blanks, and that is not modelled. This matters for the `WHERE` matches of Users.Taken, Users.FirstWithEmail, Users.ApplyUpdate, Cart.FirstMatch, Cart.WithoutItem and Cart.WithoutUser.
- Users.RawUsernameCheck: holds where text is compared exactly. Under a collation that ignores trailing blanks, `u + " "` finds the stored `u` and the registration is refused.
- The users table keeps `id` as text.
- Streamlit rendering, the sidebar, navigation and the login, register, products and cart pages are UI and are not modelled.
- `save_message` only writes to the database and is not modelled.
- The SHA-256 `hash_pw` of the page is not modelled.
- The duplicate helper definitions at the end of streamlit_app.py are modelled once.
- `get_user_profile`, `get_products` and `get_products_with_embeddings` are plain selects and are not modelled. `add_to_cart` reads products by id through `Catalog.FindProduct`.
- These are table loading, DB logging or an intent classifier that the repository does not define, and are not modelled:
  - `load_products_from_csv`;
  - fix_products.py;
  - the `ConversationService` DB methods;
  - test_llm.py.
- Cart.ItemsOf: the newest-first order of `ORDER BY created_at DESC` is represented by reversing table order. The joined product columns (name, description, image) are not carried, since only price and quantity are used.
- Cart.Joined: product ids are taken to be unique (the primary key), so a cart row joins at most one product.
