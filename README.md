# A verified model of the exchange back-end's record services

This project models the services of a NestJS and MongoDB currency-exchange
back-end. It covers wallets, trades, the per-user transaction audit log,
notifications, currency pairs, the three fee services, users and
authentication, the JWT strategy, chat, and the TrueLayer token cache. Every
MongoDB collection is an in-memory sequence of records. Each service is
modelled twice:

- Pure functions over that sequence say what each operation returns and what
  the collection becomes. The lemmas are about these functions.
- A class owns the collection (a `seq` field and the next free id), and its
  `modifies this` methods tie the new state to those functions.

Store queries become filters, sorts and windows (`Common.Filter`,
`Common.SortByKey`, `Common.Skip`, `Common.Limit`). Failures are a `Failure`
value:

- `Http(message, status)` for `ErrorHandler`, `HttpException` and
  `UnauthorizedException`;
- `Plain(message)` for a bare `Error`, which the framework answers with 500;
- `StoreRejected` for a write or query the store refuses (schema validation, a
  duplicate key, a negative skip);
- `NullDereference` for the TypeError of reading a property of a `null`
  document;
- `TokenRejected` for `jwt.verify` throwing.

Some parts of the environment are inputs to the model rather than part of it:

- Hashing, password checks, JWT signing and verification, `randomUUID` and the
  clock are parameters (`hash`, `verify`, `sign`, `verifyToken`, `generated`,
  `now`).
- The TrueLayer token endpoint's answer is a `TokenReply` parameter.

Mongoose behaviour the model follows:

- `findById` and `findOne` on the user and wallet collections skip
  soft-deleted records, because those schemas have a `pre('findOne')` hook.
  `find`, `findByIdAndUpdate`, `deleteMany` and the other collections do not.
- `required` rejects a missing value, and for strings also `""`.
- Schema defaults apply on insert. A default written `default: now()`, as for
  the base schema's `createdAt` and `updatedAt`, is evaluated once, when the
  schema is declared, so it is one fixed time for every insert of a server run.
  On insert, `timestamps: true` keeps a `createdAt` already set and gives
  `updatedAt` the same value; an update stamps `updatedAt` with the time of the update.
- A unique index also covers soft-deleted records.
- `limit(0)` and a missing limit mean no limit. A negative limit means its
  absolute value.
- The global `ValidationPipe` whitelists a body typed with a DTO class down
  to that class's declared fields. An untyped `@Body()`, as in the profile
  update, has no class to whitelist against and passes through whole.
- Strict mode drops the keys of a write that are not schema paths. Mongoose
  casts a boolean to the string "true" or "false", and casts the strings
  "true", "1" and "yes" (and "false", "0" and "no") to booleans; any other
  string for a boolean path is a cast error.

Amounts and rates are exact `real`s. Timestamps are natural numbers of
milliseconds.

## Model

| member | source | states |
|---|---|---|
| Common.FilterSplit | src/wallet/wallet.service.ts:40-42 | the records a filter keeps and those its complement keeps are, together, exactly the collection (multiset and count) |
| Common.SortByKey | src/users-transactions/user-transactions.service.ts:42 | a sort returns a permutation of its input in ascending key order (a descending sort uses the negated key) |
| Common.Limit | src/users-transactions/user-transactions.service.ts:44 | `limit(0)` keeps everything; any other limit keeps a prefix of at most abs(limit) records |
| Common.WindowIsSlice | src/users-transactions/user-transactions.service.ts:43-44 | `skip(s).limit(l)` with l >= 1 is the slice [s, s+l) of the collection, cut at its end |
| Users.FindUserById | src/user/user.service.ts:116-118 | `findById` returns a stored user with that id that is not soft-deleted, and returns nothing exactly when no such user exists |
| Users.FindOneByEmail | src/user/user.service.ts:109-114 | no lookup unless the email is non-empty and holds '@'; otherwise the live user with exactly that email, whenever one exists |
| Users.DetailsHideCredentials | src/user/user.service.ts:91-107 | the details never depend on password or secret, and two users have equal details exactly when they agree on every field except password, secret, is_verified, the 2FA flag and isDeleted |
| Users.SetTwoFactor | src/user/user.service.ts:179-196 | an unknown or soft-deleted id fails with 'User not found' (404), which is the only failure |
| Users.TwoFactorTouchesOnlyFlag | src/user/user.service.ts:185-186 | the toggle sets isTwoFactorEnabled on that user only and changes no other field of any user |
| Users.TwoFactorIdempotent | src/user/user.service.ts:194-195 | toggling twice to the same value is toggling once |
| Users.UpdateProfile | src/user/user.service.ts:153-176 | as written: the whole body is `$set`; every failure, an unknown id included, is 'Failed to update user profile' with status 500; success returns the stored updated user |
| Users.PatchSetsExactlySuppliedPaths | src/user/user.service.ts:161-166 | every path the body names takes its cast value, every other path keeps its value, keys that are no path are ignored, and the id and timestamps never change |
| Users.PathsDetermineUser | src/user/user.schema.ts:9-49 | a user is determined by its id, its timestamps and the values of its paths, so the lemma above fixes the whole updated user |
| Users.ProfileUpdateTouchesOnlyThatUser | src/user/user.service.ts:161-172 | the body is applied to exactly the user with that id and every other user is unchanged |
| Users.UpdateProfileKeepsWellFormed | src/user/user.service.ts:161-166 | ids and emails stay unique after any update the store accepted |
| Users.UpdateKeepsLiveIndex | src/user/user.service.ts:161-166 | an update whose body has no `isDeleted` leaves every `findById` answering at the same position |
| Users.ProfileUpdateSetsAnyRole | src/user/user.service.ts:161-166 | as written: any existing user who sends `{ role }` is stored with that role |
| Users.UpdateOwnProfile | src/user/user.service.ts:153-176 | corrected update (see Findings): the body cut down to the profile paths, with the same failures and result shape |
| Users.OwnProfileUpdateKeepsPrivileges | src/user/user.service.ts:161-166 | corrected update: whatever the body holds, role, account type, password, secret and the three flags stay as they were |
| Users.OwnProfileUpdateKeepsLookup | src/user/user.service.ts:116-118 | after the corrected update, `findById` finds a user exactly when it did before, and one with the same privileges |
| Users.CreateUser | src/user/user.schema.ts:16-31 | a user is stored iff email and password are non-empty and no stored user, soft-deleted or not, has that email; the role defaults to 'user' |
| Users.UserDirectory.SetTwoFactorFlag | src/user/user.service.ts:179-196 | loads, flags and saves the user; the new collection is SetTwoFactor's, and an unknown id changes nothing |
| Users.UserDirectory.EnableTwoFA | src/user/user.service.ts:179-187 | the same with the flag set to true |
| Users.UserDirectory.DisableTwoFA | src/user/user.service.ts:189-196 | the same with the flag set to false |
| Users.UserDirectory.UpdateUserProfile | src/user/user.service.ts:153-176 | corrected update (see Findings): the new collection and the result are UpdateOwnProfile's, and a failure changes nothing |
| Users.UserDirectory.Create | src/user/user.schema.ts:16-31 | appends CreateUser's user and advances the id, or changes nothing when the store refuses |
| AppUtil.LookaheadOnOneLine | src/app.util.ts:8-9 | a `(?=.*?[class])` lookahead on a string with no line terminator holds iff some character is in the class |
| AppUtil.PasswordRuleMeaning | src/app.util.ts:8-9 | PASSWORD_RULE accepts s iff s has at least 8 UTF-16 code units, no line terminator, and at least one each of A-Z, a-z, 0-9 and `# ? ! @ $ % ^ & * -` |
| AppUtil.ShortPasswordsRejected | src/app.util.ts:8-9 | every string of fewer than 8 code units is rejected, and so is every string of fewer than 4 characters |
| AppUtil.SixCharactersCanPass | src/app.util.ts:8-9 | a 6-character string with two characters outside the Basic Multilingual Plane is 8 code units long and is accepted |
| AppUtil.CodeUnits | src/app.util.ts:8-9 | a string's JavaScript length lies between its number of characters and twice that |
| Authentication.EmailCheckMatchesPattern | src/authentication/authentication.service.ts:27-31 | `isValidEmail` holds iff the string is a non-empty run of non-space, non-'@' characters, an '@', another such run, a '.', and a third such run |
| Authentication.EmailCheckMeaning | src/authentication/authentication.service.ts:27-31 | `isValidEmail` holds iff the string has no whitespace, exactly one '@', not first, and after it a '.' that is neither the first nor the last character of the domain |
| Authentication.ValidateUser | src/authentication/authentication.service.ts:33-40 | returns a user only if a live user has that email and the password verifies; null exactly when either fails |
| Authentication.Login | src/authentication/authentication.service.ts:42-56 | fails 'Please confirm your login details' (400) exactly when `validateUser` yields null; otherwise returns that user's details and a token signed over its email and id |
| Authentication.Register | src/authentication/authentication.service.ts:88-124 | an invalid email fails 'Invalid email address.'; a live user with that email fails 'Email already exist'; otherwise it returns the signed activation token and stores nothing |
| Authentication.Activate | src/authentication/authentication.service.ts:137-165 | a token that does not verify is rejected; a differing code fails 'Invalid activation code'; a live user with the token's email fails 'Email already exist'; otherwise exactly the token's name and email with the hashed password are offered to the store |
| Authentication.ActivationOverSoftDeletedEmail | src/authentication/authentication.service.ts:152-164 | an email held only by a soft-deleted user passes the 'Email already exist' check and is then refused by the unique index |
| Authentication.ActivateUser | src/authentication/authentication.service.ts:137-165 | inserts exactly the user Activate describes, or fails with Activate's failure and stores nothing; the next id advances exactly when a user is inserted |
| Authentication.AcceptedEmailMatchesPattern | src/authentication/authentication.service.ts:27-31 | every string the check accepts matches the regular expression |
| Authentication.PatternMatchAccepted | src/authentication/authentication.service.ts:27-31 | every string matching the regular expression at a given '@' and '.' is accepted |
| JwtStrategy.Validate | src/authentication/strategies/jwt.strategy.ts:18-41 | no usable email fails 'Invalid payload structure' (401); an email with no user fails Unauthorized; otherwise it returns exactly the user found for the chosen email |
| JwtStrategy.NestedEmailWins | src/authentication/strategies/jwt.strategy.ts:22-23 | a non-empty payload.user.email decides the result whatever payload.email is |
| JwtStrategy.TopLevelEmailFallback | src/authentication/strategies/jwt.strategy.ts:24-25 | without a nested email, payload.email is looked up, and validation succeeds iff that lookup does |
| JwtStrategy.NoEmailRefusedWithoutLookup | src/authentication/strategies/jwt.strategy.ts:26-28 | with neither email the answer is the same for every user collection: 'Invalid payload structure' |
| JwtStrategy.ValidatedUserHoldsEmail | src/authentication/strategies/jwt.strategy.ts:30-40 | an accepted payload resolves to a stored live user whose email is the chosen one |
| Wallets.NewWallet | src/wallet/wallet.schema.ts:10-27 | a wallet is stored iff currency_code is non-empty; balance and escrow_balance default to 0, transactions to empty, isDeleted to false |
| Wallets.FindOneById | src/wallet/wallet.service.ts:15-17 | returns a stored wallet with that id that is not soft-deleted, and nothing exactly when no such wallet exists |
| Wallets.GetAllWalletsByUser | src/wallet/wallet.service.ts:19-21 | returns exactly the wallets whose user is u |
| Wallets.DeleteAllWalletsByUser | src/wallet/wallet.service.ts:40-42 | leaves exactly the wallets whose user is not u |
| Wallets.DeleteRemovesExactlyTheListing | src/wallet/wallet.service.ts:19-42 | what the delete removes is exactly what the listing shows: the two together are the collection |
| Wallets.UpdateWallet | src/wallet/wallet.service.ts:28-38 | an unknown id changes nothing and returns null; a known one returns the updated wallet |
| Wallets.UpdateTouchesOnlyThatWallet | src/wallet/wallet.service.ts:28-38 | only the wallet with that id changes, and only in the supplied balances |
| Wallets.Fund | src/wallet/wallet.service.ts:44-65 | funding fails only when no live wallet exists for the pair and the currency code is empty |
| Wallets.FundExistingCredits | src/wallet/wallet.service.ts:50-56 | an existing live wallet of the pair gains exactly the amount in escrow_balance and no wallet is created |
| Wallets.FundAbsentCreates | src/wallet/wallet.service.ts:57-63 | with no live wallet for the pair, exactly one wallet is appended with that user, code, balance 0 and escrow_balance = amount |
| Wallets.FundLeavesOtherPairs | src/wallet/wallet.service.ts:50-56 | every wallet of another user or currency is unchanged |
| Wallets.FundAdditive | src/wallet/wallet.service.ts:55 | funding a then b leaves the same wallet and collection as funding a+b once |
| Wallets.FundKeepsOneLivePerPair | src/wallet/wallet.service.ts:54-63 | funding never creates a second live wallet for a pair |
| Wallets.FundPreservesWellFormed | src/wallet/wallet.service.ts:44-65 | funding keeps ids unique, below the next id, and one live wallet per pair |
| Wallets.UpdatePreservesWellFormed | src/wallet/wallet.service.ts:28-38 | an update keeps the collection's invariant |
| Wallets.DeletePreservesWellFormed | src/wallet/wallet.service.ts:40-42 | a delete keeps the collection's invariant |
| Wallets.WalletLedger.FundWallet | src/wallet/wallet.service.ts:44-65 | credits in place or saves a new wallet; the new collection and the result are Fund's, and the next id advances exactly when a wallet is created |
| Wallets.WalletLedger.UpdateWalletById | src/wallet/wallet.service.ts:28-38 | the new collection and the result are UpdateWallet's |
| Wallets.WalletLedger.DeleteAllByUser | src/wallet/wallet.service.ts:40-42 | the new collection is DeleteAllWalletsByUser's |
| Trades.NewTrade | src/trade/trade.schema.ts:14-75 | a trade document validates iff every required path is present (strings non-empty); sold defaults to 0 |
| Trades.CreateTrade | src/trade/trade.service.ts:16-22 | stores exactly one trade, appended, with the caller as userId and the other paths copied from the body, iff the body is valid and shares no unique value with a stored trade |
| Trades.SoldDefaultsToZero | src/trade/trade.schema.ts:68-69 | a trade stored without sold has sold = 0 |
| Trades.UniqueValuesRejected | src/trade/trade.schema.ts:53-63 | reusing a stored tradeId, beneficiary_name, beneficiary_account or beneficiary_bank is refused |
| Trades.DtoBodyAlwaysRejected | src/trade/trade.dto.ts:4-42 | a body holding only CreateTradeDTO's fields always fails validation |
| Trades.FindAll | src/trade/trade.service.ts:24-26 | returns every stored trade |
| Trades.FindByUserId | src/trade/trade.service.ts:28-30 | returns exactly the trades whose userId is u |
| Trades.FindAllExceptUser | src/trade/trade.service.ts:32-34 | returns exactly the trades whose userId is not u |
| Trades.QueriesPartitionTheBook | src/trade/trade.service.ts:24-34 | the by-owner and except-owner results are disjoint and together are the whole book |
| Trades.NewBuyTrade | src/trade/trade.schema.ts:78-121 | a BuyTrade validates iff transaction_id, userId, purchase, price, the beneficiary fields, payment_method and status are present |
| Trades.TradeBook.Create | src/trade/trade.service.ts:16-22 | appends CreateTrade's trade and advances the id, or changes nothing, keeping the unique indexes |
| UserTransactions.Strict | src/users-transactions/user-transactions.schema.ts:8-50 | a stored body keeps exactly the schema's paths other than `user_id`, which a row holds on its own field |
| UserTransactions.Create | src/users-transactions/user-transactions.service.ts:22-29 | corrected create (see Findings): appends exactly one row holding the given owner and schema fields, stamped with the creation time |
| UserTransactions.CreateAsWritten | src/users-transactions/user-transactions.service.ts:22-29 | with the schema as written, the appended row holds the schema fields and no createdAt |
| UserTransactions.Ordered | src/users-transactions/user-transactions.service.ts:41-42 | the user's rows, as a permutation, in createdAt-descending order with unstamped rows last |
| UserTransactions.FindAll | src/users-transactions/user-transactions.service.ts:31-53 | a negative skip is refused; otherwise only the user's rows, at most limit of them, with totalItems the number of the user's rows |
| UserTransactions.PageIsSlice | src/users-transactions/user-transactions.service.ts:36-44 | page p is the slice of the user's newest-first rows starting at (p-1)*limit |
| UserTransactions.FirstPagesArePrefix | src/users-transactions/user-transactions.service.ts:36-44 | pages 1..k concatenated are the first k*limit rows of the ordered list |
| UserTransactions.LaterPageStartsLater | src/users-transactions/user-transactions.service.ts:36 | a later page starts at least a full page after an earlier one |
| UserTransactions.PagesDisjoint | src/users-transactions/user-transactions.service.ts:36-44 | two different pages share no row |
| UserTransactions.TotalIndependentOfPage | src/users-transactions/user-transactions.service.ts:37-39 | totalItems is the same for every page and limit |
| UserTransactions.StampedListingNewestFirst | src/users-transactions/user-transactions.service.ts:42 | with stamped rows the listing is in createdAt-descending order |
| UserTransactions.LaterRowListedFirst | src/users-transactions/user-transactions.service.ts:42 | of two rows created one after the other, the later is listed first |
| UserTransactions.AsWrittenListsOldestFirst | src/users-transactions/user-transactions.service.ts:42 | with the schema as written (no createdAt), two rows are listed oldest first |
| UserTransactions.FindOne | src/users-transactions/user-transactions.service.ts:55-58 | returns the row with that id; an unknown id ends in a null dereference |
| UserTransactions.Update | src/users-transactions/user-transactions.service.ts:60-67 | an unknown id changes nothing and returns null; a known one returns the row merged with the body, its owner replaced by a supplied `user_id` |
| UserTransactions.UpdateTouchesOnlyThatRow | src/users-transactions/user-transactions.service.ts:60-67 | only the row with that id changes: it takes the supplied schema fields and the supplied `user_id`, and keeps everything else |
| UserTransactions.UpdateMovesRowToNewOwner | src/users-transactions/user-transactions.service.ts:60-67 | an update supplying `user_id` moves the row into the new owner's listing and out of every other user's |
| UserTransactions.Remove | src/users-transactions/user-transactions.service.ts:69-74 | removes the row with that id and returns it; an unknown id changes nothing and ends in a null dereference |
| UserTransactions.RemoveTouchesOnlyThatRow | src/users-transactions/user-transactions.service.ts:69-74 | exactly that row goes and every other row stays |
| UserTransactions.DeleteAll | src/users-transactions/user-transactions.service.ts:76-81 | removes all and only the user's rows and reports their number |
| UserTransactions.DeleteAllReportsWhatWent | src/users-transactions/user-transactions.service.ts:76-81 | what remains plus what went is the collection, and the count is what went |
| UserTransactions.Ledger.CreateRow | src/users-transactions/user-transactions.service.ts:22-29 | corrected create (see Findings): the new collection and row are Create's |
| UserTransactions.Ledger.UpdateRow | src/users-transactions/user-transactions.service.ts:60-67 | the new collection and result are Update's, a supplied `user_id` included |
| UserTransactions.Ledger.RemoveRow | src/users-transactions/user-transactions.service.ts:69-74 | the new collection and result are Remove's |
| UserTransactions.Ledger.DeleteAllOf | src/users-transactions/user-transactions.service.ts:76-81 | the new collection and deletedCount are DeleteAll's |
| Notifications.Create | src/notification/notification.service.ts:12-23 | appends one notification with the given userId, message and type, unread and stamped now, iff the three are non-empty |
| Notifications.GetNotifications | src/notification/notification.service.ts:25-30 | holds exactly the user's notifications, newest first |
| Notifications.ListingIsExactlyTheUsers | src/notification/notification.service.ts:25-27 | a notification is listed iff it is stored and belongs to the user |
| Notifications.MarkAllAsReadEffect | src/notification/notification.service.ts:32-34 | every notification of the user becomes read with nothing else changed; other users' notifications are untouched |
| Notifications.MarkAllAsReadIdempotent | src/notification/notification.service.ts:33 | marking twice is marking once |
| Notifications.ListingAfterMarkAllRead | src/notification/notification.service.ts:25-34 | after marking, every notification the user's listing shows is read |
| Notifications.Inbox.CreateNotification | src/notification/notification.service.ts:12-23 | appends Create's notification and advances the id, or changes nothing |
| Notifications.Inbox.MarkAllRead | src/notification/notification.service.ts:32-34 | the new collection is MarkAllAsRead's |
| CurrencyPairs.CreatePair | src/currencyPair/currency-pair.service.ts:23-45 | an unknown caller fails 'User not found' (400); a caller whose role is not superadmin fails with 404; otherwise exactly one pair with the given fields is appended if base and quote currency are non-empty. The rate defaults to 0, and createdAt and updatedAt both take the given stamp, which as written is the schema-load time (src/app.schema.ts:17-22) |
| CurrencyPairs.GetPair | src/currencyPair/currency-pair.service.ts:48-61 | returns the pair with that id, or fails with 404 exactly when there is none |
| CurrencyPairs.Listing | src/currencyPair/currency-pair.service.ts:69-70 | every pair, most recently updated first |
| CurrencyPairs.GetAll | src/currencyPair/currency-pair.service.ts:63-81 | a negative skip is refused; an empty page fails with 404; otherwise at most limit pairs of the collection, with count the number of all pairs |
| CurrencyPairs.GetAllPageIsSlice | src/currencyPair/currency-pair.service.ts:67-75 | a page is the slice [skip, skip+limit) of the listing, in updatedAt-descending order |
| CurrencyPairs.SkipPastEndIsNotFound | src/currencyPair/currency-pair.service.ts:77-78 | skipping past the end fails with 404 however many pairs exist |
| CurrencyPairs.CountIndependentOfWindow | src/currencyPair/currency-pair.service.ts:74 | the count is the same for every answered window |
| CurrencyPairs.ValidParamsNeverRejected | src/app.util.ts:30-47 | parameters passing PaginationParams never make the store refuse the query, and a first page of a non-empty collection is answered |
| CurrencyPairs.UpdatePair | src/currencyPair/currency-pair.service.ts:84-115 | an unknown id fails with 500; otherwise the pair with that id is updated and returned |
| CurrencyPairs.UpdateSetsSuppliedFields | src/currencyPair/currency-pair.service.ts:88-114 | exactly the supplied base_currency, quote_currency and exchange_rate change, other pairs are untouched, and the returned record is what a re-read yields |
| CurrencyPairs.DeletePair | src/currencyPair/currency-pair.service.ts:118-132 | an unknown id fails with 500 and changes nothing; otherwise one pair goes |
| CurrencyPairs.DeleteRemovesExactlyThatPair | src/currencyPair/currency-pair.service.ts:118-132 | afterwards no pair has that id and every other pair remains |
| CurrencyPairs.SameStampKeepsStoredOrder | src/currencyPair/currency-pair.service.ts:69-70 | pairs that all carry one updatedAt are listed in their stored order |
| CurrencyPairs.OneRunPairsListOldestFirst | src/app.schema.ts:17-22 | as written: two pairs created one after the other in one server run share the schema-load stamp, and `getAll` lists the older first |
| CurrencyPairs.LaterCreatedPairListedFirst | src/currencyPair/currency-pair.service.ts:69-70 | corrected create: stamped with their creation times, the later of two pairs is listed first |
| CurrencyPairs.CreatedPairIsFound | src/currencyPair/currency-pair.service.ts:40-60 | a pair just created is what a lookup of its id returns |
| CurrencyPairs.PairRegistry.Create | src/currencyPair/currency-pair.service.ts:23-45 | corrected create (see Findings): appends CreatePair's pair stamped with the creation time and advances the id, or changes nothing |
| CurrencyPairs.PairRegistry.Update | src/currencyPair/currency-pair.service.ts:84-115 | the new collection and result are UpdatePair's |
| CurrencyPairs.PairRegistry.Delete | src/currencyPair/currency-pair.service.ts:118-132 | the new collection is DeletePair's, and a failure changes nothing |
| Fees.CheckAdminPermission | src/transaction-fee/transaction-fee.service.ts:73-81 | passes iff the caller is a live user passing the service's test; otherwise fails with the service's refusal message |
| Fees.TransactionFeeGate | src/transaction-fee/transaction-fee.service.ts:73-81 | the transaction-fee service admits exactly the live callers with role 'superadmin' |
| Fees.AccountTypeGate | src/fee/transaction-fee/transaction-fee.service.ts:82-92 | the second transaction-fee service admits exactly the live callers with account_type 'admin' |
| Fees.ConversionFeeGate | src/conversion-fee/conversion-fee.service.ts:73-81 | the conversion-fee service admits exactly the live callers with role 'superadmin' |
| Fees.TransactionFeeGatesDisagree | src/fee/transaction-fee/transaction-fee.service.ts:87 | a superadmin without the admin account type is admitted by one transaction-fee service and refused by the other, and the other way round |
| Fees.SelfPromotionOpensFeeGates | src/user/user.service.ts:161-166 | as written: a live user who sends `{ role: "superadmin" }` to the profile update is then admitted by the transaction-fee and conversion-fee services |
| Fees.OwnProfileUpdateKeepsFeeGates | src/transaction-fee/transaction-fee.service.ts:73-81 | the corrected profile update never changes whether any caller passes any of the three fee gates |
| Fees.CreateFee | src/transaction-fee/transaction-fee.service.ts:25-35 | a refused caller changes nothing; otherwise exactly one fee holding the given data is appended |
| Fees.UpdateFee | src/transaction-fee/transaction-fee.service.ts:37-54 | a refused caller fails first; an unknown id fails 'Transaction fee not found' ('Conversion fee not found'); otherwise that fee is updated |
| Fees.UpdateMergesSuppliedFields | src/fee/transaction-fee/transaction-fee.service.ts:56-57 | supplied fields take their new values, all other fields keep theirs, and no other fee changes |
| Fees.UpdateIdempotent | src/conversion-fee/conversion-fee.service.ts:50-51 | updating twice with the same body is updating once |
| Fees.DeleteFee | src/transaction-fee/transaction-fee.service.ts:56-71 | a refused caller fails first; no matching fee fails with the not-found message; otherwise it returns true and one fee goes |
| Fees.DeleteRemovesExactlyThatFee | src/conversion-fee/conversion-fee.service.ts:62-70 | afterwards no fee has that id and every other fee remains |
| Fees.RefusedCallerChangesNothing | src/conversion-fee/conversion-fee.service.ts:29-60 | for a refused caller, create, update and delete all fail with the refusal and store nothing |
| Fees.FeeTable.FindAll | src/transaction-fee/transaction-fee.service.ts:21-23 | `findAll` returns every stored fee and changes nothing |
| Fees.FeeTable.Create | src/transaction-fee/transaction-fee.service.ts:25-35 | appends CreateFee's fee and advances the id, or changes nothing |
| Fees.FeeTable.Update | src/transaction-fee/transaction-fee.service.ts:37-54 | the new collection and result are UpdateFee's |
| Fees.FeeTable.Delete | src/transaction-fee/transaction-fee.service.ts:56-71 | the new collection and result are DeleteFee's |
| Chat.BuildMessage | src/chat/chat.service.ts:19-25 | the sender, when found, is the message's user; support is the same user when isSupport, else null |
| Chat.CreateMessage | src/chat/chat.service.ts:14-27 | a message is stored only if it passes the chat schema |
| Chat.CreateMessageAlwaysRejected | src/chat/chat.service.ts:21-26 | as written, every createMessage is refused, because conversationId is never set |
| Chat.CreateMessageInStoresSender | src/chat/chat.service.ts:19-26 | with a text and a conversation id, exactly one message is appended, with the sender as user and as support exactly when isSupport |
| Chat.CreateMessageIn | src/chat/chat.service.ts:14-27 | with the conversation id stored, a message is appended iff its text and conversation id are non-empty |
| Chat.ChatRoom.Send | src/chat/chat.controller.ts:33-43 | appends CreateMessageIn's message and advances the id, or changes nothing |
| Chat.GetMessages | src/chat/chat.service.ts:29-49 | an unknown caller ends in a null dereference; an admin sees every message, others the messages they send or support; oldest first |
| Chat.AdminSeesEveryMessage | src/chat/chat.service.ts:32-38 | an admin's listing holds every stored message |
| Chat.OthersSeeOnlyTheirMessages | src/chat/chat.service.ts:39-47 | anyone else sees exactly the messages where they are user or support |
| TrueLayer.GetAccessToken | src/truelayer/truelayer.service.ts:37-72 | a hit returns the cached token unchanged; a miss stores and returns the granted token with expiry replyAt + expires_in*1000; a refusal fails with 401 and keeps the cache |
| TrueLayer.HitIgnoresEndpoint | src/truelayer/truelayer.service.ts:38-44 | on a hit the endpoint is never consulted |
| TrueLayer.FalsyCacheForcesRefresh | src/truelayer/truelayer.service.ts:38-41 | an empty token or a zero or missing expiry always forces a refresh |
| TrueLayer.RefreshedTokenHitsAtOnce | src/truelayer/truelayer.service.ts:62-63 | after a refresh granting a non-empty token for a positive time, a call at the same instant is a hit |
| TrueLayer.RefreshedTokenLifetime | src/truelayer/truelayer.service.ts:38-63 | a refreshed token is a hit exactly before its expiry |
| TrueLayer.FailedFetchKeepsCache | src/truelayer/truelayer.service.ts:66-71 | a failed fetch fails with 401 and leaves token and expiry unchanged |
| TrueLayer.TrueLayerClient.GetToken | src/truelayer/truelayer.service.ts:37-72 | the token returned and the new fields are GetAccessToken's |
| TrueLayer.TransactionIdFor | src/truelayer/truelayer.service.ts:164-167 | a truthy supplied transaction_id is kept; otherwise the generated one is used |
| TrueLayer.TransactionIdStable | src/truelayer/truelayer.service.ts:164-167 | defaulting again keeps the id chosen the first time |
| TrueLayer.WithdrawalRequest.EnsureTransactionId | src/truelayer/truelayer.service.ts:164-167 | sets transaction_id to TransactionIdFor's choice, so a truthy one is kept |

## Left out

- Controllers, modules, DTO class-validator decorators (`IsNotEmpty` and the like), Swagger metadata and `ParseObjectIdPipe`: these are routing and library validation; ids are opaque naturals.
- Mail sending in `register` (not awaited), the websocket gateway, Cloudinary, Paystack, Stellar, Mono, and the axios calls and request signing of the TrueLayer service other than the token fetch: network clients.
- Hashing, password verification, JWT signing and verification, TOTP, QR codes, `randomUUID` and the activation code from `Math.random`: parameters of the model, never defined.
- `formatDate` and `formatDateString`: locale formatting through `Intl`.
- Floating-point arithmetic: amounts, rates and credits are exact reals, so rounding and `NaN` are not modelled.
- `createWallet`: its DTO's `userId` maps to no wallet schema path, so what it stores cannot be stated.
- The currency-conversion service: float arithmetic on a rate, obtained from a `getExchangeRate` that the currency-pair service does not define.
- The wallet schema declares no `user` path, although the wallet service filters and saves on one. The model keys wallets by (user, currency_code), as the service does.
- The user schema names the two-factor flag `is_2FA_enabled`, but the user service writes `isTwoFactorEnabled`. The model treats the service's field as the flag.
- Users.User: src/user/user.schema.ts declares no `gender`, `account_type` or `business_*` paths, yet `getUserDetails` and the account-type fee gate read them. The model treats them as stored paths. With the schema as shipped, strict mode drops them from every write and they read back as undefined, so `getUserDetails` reports them undefined and the account-type gate of src/fee/transaction-fee refuses every caller.
- Users.UpdateProfile: a body holding numbers, `null`, arrays or nested objects is not modelled, only strings and booleans. Keys `_id`, `createdAt`, `updatedAt` and `deletedAt` are ignored, as are keys that are no path. Mongoose's automatic `updatedAt` stamping is not modelled.
- Sort ties: the model keeps ties in insertion order. MongoDB does not promise any order for ties.
- Timestamps of wallets, trades, users and fees: not modelled. Only currency pairs, notifications, chat messages and user transactions carry the times their ordering needs. The users' stored `createdAt` and `updatedAt` are placeholders; as written they would hold the schema-load time of the base schema's `default: now()`.
- Object population (`populate`) in chat listings: the model returns the stored references.
- Controller calls to service methods that do not exist (`getAllPairs`, `addPair` and `removePair` in the super-admin controller, `buyTrade`, the beneficiary operations and the index operations in the trade controller): the model follows the services.
- `E_USER_ROLE.user` is defined outside the modelled files; its value is taken to be "user".
- Fees.CreateFee: fee schema validation is not modelled, so every create and save is taken to succeed. The schema files that src/transaction-fee and src/conversion-fee import are not part of this model. The schema of src/fee/transaction-fee declares a misspelt `maximummum_amount`.
- Fees.UpdateFee: the save after `Object.assign` is assumed to pass validation. Strict-mode dropping of unknown keys is not modelled for fees.
- CurrencyPairs.UpdatePair: a field missing from the body is taken to be left unchanged, since Mongoose removes undefined keys from an update. The 404 branches after `findByIdAndUpdate` and `findByIdAndDelete` cannot be reached in a sequential model, so they are not modelled.
- CurrencyPairs.CreatePair: the store refusing a pair with an empty base or quote currency is modelled as `StoreRejected`. The DTO's own `IsNotEmpty` checks are not modelled.
- Trades.CreateTrade: a body's own `userId` is not modelled, because the whitelisting pipe strips it. Concurrent inserts racing on a unique index are not modelled.
- TrueLayer.GetAccessToken: `expires_in` is an integer number of seconds, so a missing one (which gives `NaN`) is not modelled. The error body is a string.
- UserTransactions.FindAll: a fractional page or limit is not modelled.
- UserTransactions.Update: a `user_id` of `null` in the body is not modelled; a supplied `user_id` is an id.
- UserTransactions.Strict: a body value is a string or a number, stored as sent. The model does not type values per schema path. Mongoose would store a number sent to a String path as a string, and it would cast a string sent to a Number or Date path. An uncastable value (`transaction_fee: "abc"`, a `date` that parses to no date) is a CastError. That error rejects the `save()` of `create` and the `findByIdAndUpdate` of `update`. The model stores the value in both cases, so Create, CreateAsWritten and Update never fail for a cast.
- CurrencyPairs.UpdatePair: the untyped `req.body` may hold `null` or an uncastable value, which `PairFields` cannot express. `{ exchange_rate: null }` would `$set` the rate to null. `{ exchange_rate: "x" }` would be a CastError that fails the update. Neither case is modelled.
- Concurrency, and the atomicity of the store's multi-step operations.

## Findings

| source | as written | input that shows it | evidently intended | confidence | as-written member | corrected member |
|---|---|---|---|---|---|---|
| src/users-transactions/user-transactions.service.ts:42 | `find({ user_id }).sort({ createdAt: -1 })`, but the user-transaction schema has no timestamps and no `createdAt` path, so nothing is sorted and rows come back in insertion (oldest-first) order | create two rows for one user, one after the other, then `findAll(user, 1, 10)` | the newest row first | not executed | UserTransactions.AsWrittenListsOldestFirst | UserTransactions.LaterRowListedFirst |
| src/user/user.service.ts:161-166 | `$set: updateUserDto` with the body exactly as the controller received it (src/user/user.controller.ts:236 declares `@Body()` without a DTO class, so nothing is whitelisted), so any schema path can be written, `role` included | a user sends `{ role: "superadmin" }` to update-profile, then creates a transaction fee | a profile update changes only profile fields (name, email, phone, gender, business details) | not executed | Users.ProfileUpdateSetsAnyRole | Users.OwnProfileUpdateKeepsPrivileges |
| src/chat/chat.service.ts:21-26 | `createMessage` builds `{ user, message, support }` and saves it, but the chat schema requires `conversationId`; the controller passes one as a fourth argument and the service drops it | any `createMessage(userId, "hi", false)` | the message stored with its conversation id | not executed | Chat.CreateMessageAlwaysRejected | Chat.CreateMessageInStoresSender |
| src/app.schema.ts:17-22 | `@Prop({ default: now() })` for `createdAt` and `updatedAt`: `now()` runs once, when the class is decorated, and on insert `timestamps: true` keeps that `createdAt` and copies it into `updatedAt`, so every pair created in one server run carries the same stamp and `getAll`'s `sort({ updatedAt: -1 })` cannot order never-updated pairs | create pair A, then pair B, in one run, then `getAll()` | the newest pair first, stamps taken at insert (`default: Date.now`) | not executed; rests on Mongoose's timestamp rule | CurrencyPairs.OneRunPairsListOldestFirst | CurrencyPairs.LaterCreatedPairListedFirst |
