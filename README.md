# Copy-trading ledger: a Dafny model of the page handlers

The application is a set of React pages over a hosted database. Followers deposit USDT (recharges), ask to follow a mentor (copy-trade requests), and see their positions and referral tree. Back-office operators audit the requests and recharges. They also publish a mentor's stock position, which binds the approved follows to it, and settle it, which credits every follower with the profit or loss and releases the frozen principal.

This project models the rules those handlers enforce, one module per page:

- `LedgerModel`: the database rows (users, `copytrade_details` bindings, stocks, copy-trade requests, recharges, withdraws). It also holds the database itself as a `Ledger` object whose tables the handlers update.
- `Settlement` and `StockManagement`: the stock life cycle pending → published → settled. This covers:
  - the profit formula;
  - the per-user accumulation loop;
  - the bindings and balances written back;
  - money conservation between bindings and users.
- `CopyTradeAudit`, `RechargeManagement` and `Paging`: the approval flows and the shared ten-row pagination.
- `Invite`: the fold over the referral tree into per-level counts and lists, the "effective" count, and the realtime direct-invitee update.
- `Withdraw`, `Trade`, `Recharge`, `Register` and `Login`: the ordered input checks and the single row each inserts.
- `Positions`, `Home`, `Markets` and `AdminDashboard`: list and string helpers. These are:
  - the classification of positions;
  - the coin tabs and the top-coin list;
  - banner rotation;
  - suffix stripping, search and logo addresses;
  - breadcrumbs and the admin guard.
- `Common`: the JavaScript behaviour the pages rely on. This includes `x || 0` on parsed numbers, `trim`, ASCII `toLowerCase`/`toUpperCase`, `includes`, `replace` of the first occurrence, and `filter`.

How the model treats the outside world:

- Database reads are inputs. Each write either succeeds or reports an error, as a fault parameter says.
- `parseFloat` results are `JsNumber` values: `NaN` or a real number.
- Randomness is a sequence of draws.
- Money is `real`.

## Model

| member | source | states |
|---|---|---|
| Settlement.ProfitSign | Backend/StockManagement.jsx:184-198 | With a positive principal and buy price and a commission below 100%, a follower gains exactly when the sale price is above the buy price, loses exactly when it is below, and gets zero exactly when they are equal |
| Settlement.CommissionCushions | Backend/StockManagement.jsx:191-198 | With a commission between 0 and 100%, the follower's profit lies between zero and the gross price change on the principal, for gains and losses alike |
| Settlement.ProfitAdditive | Backend/StockManagement.jsx:189-198 | Two follows at the same commission earn together what one follow of the summed principal earns |
| Settlement.ComputeSettlement | Backend/StockManagement.jsx:184-213 | The loop's `detailUpdates` hold one entry per binding, in order, with its own profit. `userUpdates` maps every user of the batch to the sum of their bindings' profits and the sum of their principals. Its insertion list names each key once |
| Settlement.AccumulatedStep | Backend/StockManagement.jsx:207-212 | One more binding changes only its own user's entry, which grows by that binding's profit and principal (starting from zero for a new user) |
| Settlement.UserTotalOfStranger | Backend/StockManagement.jsx:207-212 | A user with no binding in the batch receives nothing |
| Settlement.Conservation | Backend/StockManagement.jsx:207-212 | Summing the per-user totals over any duplicate-free list naming every user of the batch gives the batch total: accumulation creates and loses no money |
| Settlement.AccumulatedConserves | Backend/StockManagement.jsx:268-274 | The users' profits sum to the batch profit and their released principals sum to the batch principal reported in the success message |
| Settlement.SumOverUsersSnoc | Backend/StockManagement.jsx:207-212 | Adding a binding adds its part to the sum over users exactly when its user is listed |
| Settlement.SumOverUsersOfEmpty | Backend/StockManagement.jsx:185-186 | An empty batch gives every user zero |
| Settlement.SettleBindingsSpec | Backend/StockManagement.jsx:169-176 | Exactly the approved bindings of the stock become settled, each recording its own profit. Every other binding is untouched, nothing remains to settle, and a second run changes nothing |
| Settlement.WriteDetailsEffect | Backend/StockManagement.jsx:216-224 | Each row named by a succeeding write is settled with that write's profit. A row that is not named, or whose write fails, is untouched |
| Settlement.WriteDetailsAvoidingFailures | Backend/StockManagement.jsx:226-228 | Failures on rows no update names do not change the outcome |
| Settlement.CompleteDetailWritesSettle | Backend/StockManagement.jsx:201-224 | When no write fails, issuing one write per update computed from the query result leaves the table exactly as a complete settlement of the stock |
| Settlement.CasWriteDropsChangeOnConflict | Backend/StockManagement.jsx:241-254 | As written: a concurrent change between the read and the write makes the compare-and-set match no row. The user then keeps their balances and the released principal and profit never arrive, while no error is reported |
| Settlement.RetryWrite | Backend/StockManagement.jsx:235-239 | Corrected write: the balance grows by exactly the profit and the available balance by the principal plus the profit. Every other field is kept |
| Settlement.WriteUsersAsIssued | Backend/StockManagement.jsx:231-255 | As written. The users table keeps its rows. A user outside the batch, with a missing joined row or with a failing write is untouched. A batch user whose joined row differs from the current balances is untouched too. A batch user whose joined row still holds the current balances gets exactly their profit on the balance and principal plus profit on the available balance, and keeps every other field |
| Settlement.WriteUsersRetrying | Backend/StockManagement.jsx:231-255 | Corrected step 4. A user whose joined row is missing or whose write fails is untouched, as is every user outside the batch. Every other batch user's balances grow by exactly their change |
| Settlement.AsIssuedAgreesWithoutConflict | Backend/StockManagement.jsx:241-249 | When every joined row still holds the current balances, the compare-and-set writes and the retrying writes leave the same table |
| Settlement.RetryAgreesWithoutConflict | Backend/StockManagement.jsx:241-249 | Without a concurrent change, one compare-and-set equals one retrying write |
| Settlement.RetryWritesCommute | Backend/StockManagement.jsx:238-239 | Two settlements crediting the same user give the same row in either order |
| StockManagement.SetStockStatus | Backend/StockManagement.jsx:260-263 | Only the stock's status changes; a missing row matches nothing and other stocks are untouched |
| StockManagement.ActionsFor | Backend/StockManagement.jsx:538-546 | Settle is offered exactly for a published stock and publish exactly for a pending one, never both |
| StockManagement.NewStockRow | Backend/StockManagement.jsx:87-99 | A form with any empty field inserts nothing. Otherwise the new stock is pending, with the parsed mentor and prices and the coin name trimmed of all the white space `trim` removes (ASCII and Unicode space separators alike) |
| StockManagement.AddStockPage.constructor | Backend/StockManagement.jsx:8-14 | The add form starts empty and closed |
| StockManagement.AddStockPage.HandleAddStock | Backend/StockManagement.jsx:87-108 | A missing field or a failing insert changes nothing. Otherwise exactly one pending stock is added under a fresh id, no other table changes, and the form is cleared and closed |
| StockManagement.ClaimSpec | Backend/StockManagement.jsx:115-128 | Exactly the mentor's approved, unbound follows get the stock id and nothing else about them changes. Other rows are untouched, no claimable row is left, and a row is settleable afterwards iff it was claimed or was already settleable |
| StockManagement.ClaimIdempotent | Backend/StockManagement.jsx:125-128 | Claiming twice is claiming once |
| StockManagement.FindStock | Backend/StockManagement.jsx:111-112 | The index of the first listed stock with the id, or none exactly when no listed stock has it |
| StockManagement.HandlePublish | Backend/StockManagement.jsx:110-144 | An unknown id or a failing query changes nothing, and so does a failing bind when there is something to bind. Otherwise the claimable follows are bound and the stock becomes published even when none were bound, reporting how many were. A failing status write leaves the follows bound |
| StockManagement.IssueDetailWrites | Backend/StockManagement.jsx:216-228 | The bindings table is the result of all the writes, only the bindings change, and the step fails iff some write reported an error |
| StockManagement.IssueUserWrites | Backend/StockManagement.jsx:231-257 | The users table becomes the corrected step 4 result, and only the users change. The failed set is exactly the batch users whose joined row is missing or whose write failed |
| StockManagement.HandleSettle | Backend/StockManagement.jsx:146-289 | Any of these returns with nothing changed: a stock that is not published, a declined confirmation, a failing query, an empty batch (the stock stays published), or a zero buy price. A failing binding write leaves balances and the stock as they were. Otherwise exactly the stock's approved bindings are settled and every batch user is credited. The stock becomes settled only when every write succeeded, and the summary reports the batch's principal and profit |
| CopyTradeAudit.DisplayStatus | Backend/CopyTradeAudit.jsx:47 | The first linked binding's status when there is one and it is not empty, otherwise the request's own status |
| CopyTradeAudit.ActionsOffered | Backend/CopyTradeAudit.jsx:209-220 | Approve and reject are offered iff the displayed status is pending |
| CopyTradeAudit.SettledBindingHidesActions | Backend/CopyTradeAudit.jsx:47 | A pending request whose first binding has moved on offers no action |
| CopyTradeAudit.AvailableAfterApproval | Backend/CopyTradeAudit.jsx:59-83 | Approval is refused iff the amount is NaN or not positive or exceeds the available balance. Otherwise the available balance drops by exactly the amount and stays non-negative |
| CopyTradeAudit.ExactBalanceApproves | Backend/CopyTradeAudit.jsx:73-78 | Approving the whole available balance is allowed and leaves zero |
| CopyTradeAudit.HandleApprove | Backend/CopyTradeAudit.jsx:58-96 | A bad amount, a failed user read or an insufficient balance changes nothing, and so does a failed deduction. The request is approved only after the deduction succeeded, and a request changes only when its user's balance changed too |
| CopyTradeAudit.SetRequestStatus | Backend/CopyTradeAudit.jsx:85-88 | Only the request's status changes; other requests are untouched |
| CopyTradeAudit.HandleReject | Backend/CopyTradeAudit.jsx:98-110 | The request becomes rejected unless the write fails; no balance or other table changes |
| Paging.PageWindow | Backend/CopyTradeAudit.jsx:27-28 | Each page asks for exactly ten rows, starting at row 0 or later |
| Paging.RowOnExactlyOnePage | Backend/RechargeManagement.jsx:14-15 | Every row lies in the window of exactly one page: windows are disjoint and leave no gap |
| Paging.NextPageFollows | Backend/CopyTradeAudit.jsx:27-28 | Consecutive pages are adjacent ranges |
| Paging.TotalPages | Backend/RechargeManagement.jsx:114 | The smallest page count whose pages hold every row |
| Paging.PrevPage | Backend/RechargeManagement.jsx:241 | "Previous" goes back one page but never below page 1 |
| Paging.NextPage | Backend/RechargeManagement.jsx:251 | "Next" goes forward one page but never beyond the last page |
| Paging.NavigationStaysInRange | Backend/CopyTradeAudit.jsx:232-242 | From a page in range, both buttons stay within 1..totalPages |
| RechargeManagement.OrElse | Backend/RechargeManagement.jsx:35-38 | A missing or empty value shows the fallback, any other value shows itself |
| RechargeManagement.FormatRow | Backend/RechargeManagement.jsx:33-39 | Missing phone, channel and hash show "未知", "未知通道" and "无", so no shown field is empty |
| RechargeManagement.TxDisplay | Backend/RechargeManagement.jsx:166-168 | A hash over 12 characters shows its first six and last six characters around "...". A shorter one shows whole |
| RechargeManagement.ActionsOffered | Backend/RechargeManagement.jsx:212-229 | Approve and reject appear iff the recharge is pending |
| RechargeManagement.SetRechargeStatus | Backend/RechargeManagement.jsx:83-86 | Only that recharge's status changes |
| RechargeManagement.IncrementBalance | Backend/RechargeManagement.jsx:89-90 | Only the user's balance changes, growing by the amount; other users are untouched |
| RechargeManagement.HandleApprove | Backend/RechargeManagement.jsx:78-98 | A bad amount or a failed status write changes nothing. Otherwise the recharge is approved first, and the balance is credited only when the increment call succeeds |
| RechargeManagement.HandleReject | Backend/RechargeManagement.jsx:100-112 | Only the recharge's status becomes rejected, unless the write fails |
| Invite.MaskPhone | components/Invite.jsx:34-37 | A number under 8 characters shows as is. A longer one shows its first three and last four characters around four asterisks |
| Invite.MaskingHides | components/Invite.jsx:34-37 | The masked form of a long number does not depend on its hidden middle: two numbers agreeing on their first three and last four characters show alike |
| Invite.LevelListSnoc | components/Invite.jsx:94-96 | A row joins the list of its own level only, at the end |
| Invite.EffectiveListSnoc | components/Invite.jsx:98 | A row counts as effective iff its recharge total reaches 115, whatever its level |
| Invite.FoldConsistent | components/Invite.jsx:101 | Each tier's count equals its list's length, and the total is the sum of the three tiers |
| Invite.CountTree | components/Invite.jsx:88-101 | The loop's counters and lists equal the per-level lists of the rows, in order, and the count of effective rows |
| Invite.TiersAtMostRows | components/Invite.jsx:94-96 | The three tiers never count a row twice, so together they count at most the rows |
| Invite.EffectiveOutsideTiers | components/Invite.jsx:98 | A level-4 row with 200 recharged is effective while no tier counts it, so the effective count can exceed the total |
| Invite.InviteView.constructor | components/Invite.jsx:8-25 | The screen starts loading with every count zero and every list empty |
| Invite.InviteView.LoadTreeData | components/Invite.jsx:63-122 | The tree is requested iff the user id is a positive number. A failed call keeps the figures. A successful one replaces every figure by the fold of the rows, and the flat list by level 1. Loading always ends |
| Invite.InviteView.Show | components/Invite.jsx:103-115 | Every figure is taken from the fold and loading ends |
| Invite.InviteView.OnDirectInvitee | components/Invite.jsx:148-164 | Level 1, the total and the flat count grow by one and the newcomer heads both lists with recharge 0. Levels 2 and 3 and the effective count are untouched, and consistent counters stay consistent |
| Withdraw.RequestCheck | components/Withdraw.jsx:40-61 | A request passes iff a TRC-20 address is saved and the amount is a number in 100..9999 within the available balance. Otherwise the first failing check in the source's order gives its message |
| Withdraw.BoundsInclusive | components/Withdraw.jsx:51-61 | 100, 9999 and exactly the available balance are all accepted |
| Withdraw.SaveCheck | components/Withdraw.jsx:92-104 | The input is saved iff its trimmed form is a TRC-20 address, and what is saved is the trimmed form. Trimming removes the same white space as `trim`, Unicode space separators included. Blank and malformed inputs get their own messages |
| Withdraw.PaddedAddressSaves | components/Withdraw.jsx:92 | An address typed with a white-space character on either side, such as an ideographic space, is saved without them |
| Withdraw.SavedAddressPassesAddressChecks | components/Withdraw.jsx:45-49 | A saved address never fails the request's address checks |
| Withdraw.WithWallet | components/Withdraw.jsx:107-110 | Only that user's wallet address changes |
| Withdraw.WithdrawPage.constructor | components/Withdraw.jsx:7-11 | No address saved or typed, no amount, no error, not loading |
| Withdraw.WithdrawPage.RequestWithdraw | components/Withdraw.jsx:34-85 | Nothing happens while loading. A failed check sets its message and inserts nothing. Otherwise exactly one pending withdraw is inserted with the parsed amount and the saved address, and the amount field is cleared |
| Withdraw.WithdrawPage.SaveAddress | components/Withdraw.jsx:87-126 | Nothing happens while loading. A refused input sets its message. A good one is written to the user's row and then shown, and the input is cleared |
| Trade.FilterMentors | components/Trade.jsx:115-117 | Every kept mentor's lower-cased name contains the lower-cased query |
| Trade.FilterMentorsExact | components/Trade.jsx:115-117 | The list keeps, in order, exactly the mentors whose name matches: each as many times as the input lists it, and no other |
| Trade.EmptyQueryKeepsAll | components/Trade.jsx:115-117 | An empty query keeps every mentor |
| Trade.FollowCheck | components/Trade.jsx:125-136 | A follow passes iff the amount field is filled, the amount is not at most 0, does not exceed the available balance, and a mentor is chosen. Otherwise the first failing check's message is given |
| Trade.SmallFollowPasses | components/Trade.jsx:129-132 | An amount equal to the available balance passes |
| Trade.UnparseableAmountPasses | components/Trade.jsx:125-132 | A filled but unparseable amount passes both amount checks, since NaN compares false |
| Trade.FollowRequest | components/Trade.jsx:139-145 | The inserted request is pending, carries the amount, and copies the mentor's id and commission |
| Trade.TradePage.constructor | components/Trade.jsx:7-11 | The screen starts with no mentor selected, an empty amount and a zero balance |
| Trade.TradePage.SelectMentor | components/Trade.jsx:119-122 | The mentor is selected and the follow form opens |
| Trade.TradePage.HandleFollow | components/Trade.jsx:124-161 | A failing check or insert writes nothing. Otherwise exactly one request is inserted and the form resets |
| Trade.TradePage.Back | components/Trade.jsx:163-166 | The form closes and the selection is cleared |
| Trade.TradePage.OnBalancePayload | components/Trade.jsx:51-55 | A payload carrying the field sets the balance to its parsed value, or 0. Any other payload changes nothing |
| Trade.TradePage.FetchAvailableBalance | components/Trade.jsx:75-89 | Without a user nothing changes. A successful read sets the parsed balance or 0, and a failed read sets 0 |
| Recharge.SubmitCheck | components/Recharge.jsx:48-73 | Not signed in sends the visitor to login. Otherwise the request is accepted iff a channel is chosen, the amount is a number of at least 1 and the hash is not blank once trimmed of the white space `trim` removes, Unicode spaces included. Each failure gives its own message |
| Recharge.SubmitBoundaries | components/Recharge.jsx:63-73 | An amount of exactly 1 is accepted, 0.5 is refused, and a hash of ASCII spaces or of one ideographic space is refused |
| Recharge.RechargeRow | components/Recharge.jsx:79-85 | The inserted row is pending, with the user, the channel id, the parsed amount and the trimmed hash |
| Recharge.RechargePage.constructor | components/Recharge.jsx:7-13 | An empty form with no channel selected, not loading, no error |
| Recharge.RechargePage.HandleSubmit | components/Recharge.jsx:48-100 | Not signed in goes to the login tab with nothing written. A failing check sets its message. An accepted request inserts exactly one row and resets the form, unless the insert fails |
| Register.Candidate | components/Register.jsx:24-26 | Every candidate is seven characters from A–Z and 0–9 |
| Register.GeneratedFrom | components/Register.jsx:19-38 | Generation fails iff every remaining attempt up to the hundredth reports a taken code. A result is always a well-formed code, and it is unused when no read failed |
| Register.GeneratedIsFirstFree | components/Register.jsx:22-35 | A generated code is the candidate of an attempt reported free, every earlier attempt having been reported taken |
| Register.GenerateReferralCode | components/Register.jsx:16-40 | The bounded retry loop returns what `GeneratedFrom` gives from attempt 0: the first candidate reported free (`GeneratedIsFirstFree`), or nothing after 100 attempts reported taken |
| Register.FirstFreeCandidateWins | components/Register.jsx:23-36 | When the first candidate is free it is the code |
| Register.InviterKey | components/Register.jsx:43-48 | An input that is blank once trimmed, Unicode spaces included, looks up nothing. Otherwise the key is the trimmed, upper-cased input |
| Register.LookupNormalises | components/Register.jsx:48 | A code typed in lower case with a white-space character on either side looks up the code itself |
| Register.UpperOfLowerCode | components/Register.jsx:48 | Upper-casing a lower-cased code gives the code back |
| Register.ResolveInviter | components/Register.jsx:43-54 | An empty input or one of white space only, Unicode spaces included, means no inviter. Otherwise there is an inviter iff the lookup found exactly one user, and any other answer is an invalid code |
| Register.IdeographicBlankHasNoInviter | components/Register.jsx:44 | An input of ideographic spaces means no inviter, whatever the lookup answers |
| Register.InviterIsTheHolder | components/Register.jsx:43-54 | When one user holds the code, the typed code resolves to that user |
| Register.FormCheck | components/Register.jsx:64-73 | The form passes iff the passwords match and the phone has at least 10 characters, and a mismatch is reported before the phone |
| Register.NewUser | components/Register.jsx:86-96 | The new user starts with zero balances, its generated code, no wallet and the resolved inviter |
| Register.RegisterPage.constructor | components/Register.jsx:11-13 | No error, not loading, no code shown |
| Register.RegisterPage.HandleRegister | components/Register.jsx:57-118 | Nothing happens while loading. A failing guard, code generation, inviter lookup or insert writes nothing; a lookup that returns anything but one row is an invalid code. Otherwise exactly one user is inserted, the code is shown and the session is kept. When no existence read failed, the new code differs from every code in the users table |
| Login.LoginCheck | components/Login.jsx:17-40 | Sign-in succeeds iff the phone has at least 10 characters, the lookup found exactly one user and the password equals the stored one exactly. Each failure gives its message in the source's order |
| Login.StoredPasswordSignsIn | components/Login.jsx:24-40 | For the holder of a phone number, the stored password signs in as them and any other password is refused |
| Login.UnknownPhoneNotFound | components/Login.jsx:30-34 | A phone number nobody holds is reported as an unknown user |
| Login.LoginPage.constructor | components/Login.jsx:9-10 | No error and not loading |
| Login.LoginPage.HandleLogin | components/Login.jsx:12-57 | Nothing happens while loading. A failure sets its message. Success keeps the phone number and user id as the session |
| Positions.SettledEntry | components/Positions.jsx:70-86 | A settled row shows its profit (0 when unparseable), prefixed with "+" iff it is not negative |
| Positions.Pending | components/Positions.jsx:56-69 | Every in-progress entry shows "---" and "In Progress" |
| Positions.Completed | components/Positions.jsx:70-103 | Every completed entry is settled or rejected, and shows earnings iff it is settled |
| Positions.CompletedIsClosedRows | components/Positions.jsx:70-103 | The completed list is exactly the settled and cancelled rows, in order, a settled row giving its profit entry and a cancelled one its "---" Rejected entry |
| Positions.Classify | components/Positions.jsx:39-104 | The loop's floating profit and lists equal the classification of the rows |
| Positions.PendingIsApprovedRows | components/Positions.jsx:56-69 | The in-progress list is exactly the approved rows, in order |
| Positions.OtherStatusIgnored | components/Positions.jsx:56-103 | A row of any other status appears in neither list and adds nothing |
| Positions.ShownProfitAppend | components/Positions.jsx:71 | Shown profits add up over concatenated lists |
| Positions.FloatingPLIsShownProfit | components/Positions.jsx:39-106 | The floating P/L is the sum of the profits shown in the completed list |
| Positions.PositionsView.constructor | components/Positions.jsx:11-15 | Zero balances and P/L, both lists empty |
| Positions.PositionsView.Load | components/Positions.jsx:17-112 | Without a signed-in user nothing changes. Otherwise the balances are shown (0 when missing), and a successful read replaces the lists and the P/L by the classification |
| Positions.PositionsView.ListFor | components/Positions.jsx:114 | The pending tab shows the in-progress list, any other tab the completed list |
| Home.NextBanner | components/Home.jsx:222-224 | The next index stays in range: it advances by one and wraps from the last banner to the first |
| Home.RotatedCounts | components/Home.jsx:222-224 | Before wrapping, k ticks advance the index by k |
| Home.RotatedCompose | components/Home.jsx:222-224 | Ticking a times then b times is ticking a+b times |
| Home.BannersCycle | components/Home.jsx:222-224 | After as many ticks as there are banners the index is back where it was |
| Home.TodayPnlAppend | components/Home.jsx:210-213 | Today's PnL adds up over concatenated row lists |
| Home.UnparseableProfitIgnored | components/Home.jsx:211 | An unparseable profit counts as 0 |
| Home.PnlAfterFetch | components/Home.jsx:205-214 | A failed read keeps the shown PnL, and a successful one shows the sum of the rows |
| Home.Insert | components/Home.jsx:259-263 | Inserting keeps every element and adds the new one |
| Home.InsertMembers | components/Home.jsx:259-263 | Inserting brings in no element other than the new one |
| Home.InsertSorted | components/Home.jsx:259-263 | Inserting into a sorted list keeps it sorted |
| Home.SortBy | components/Home.jsx:259-263 | The sorted copy is a permutation of the list, ordered by the key |
| Home.Take | components/Home.jsx:257 | `slice(0, n)` is the prefix of exactly n elements, or the whole list when it is shorter |
| Home.TakeSortedIsTop | components/Home.jsx:259-263 | The first n of a sorted list are sorted, come from the list, and precede every element left out |
| Home.TabOrder | components/Home.jsx:254-267 | Exactly the hot, gainers and losers tabs sort |
| Home.FilteredCoins | components/Home.jsx:254-267 | Ten coins are shown, or all of a shorter list. Favorites and unknown tabs show the first ones in the list's order |
| Home.SortedTabIsTop | components/Home.jsx:258-263 | A sorting tab shows ten coins of the list, or all of a shorter one, in order. Hot is by price descending, gainers by change descending and losers by change ascending, and a coin left out ranks after every shown coin |
| Home.TopTickers | components/Home.jsx:235-238 | The USDT tickers of the input by quote volume descending: fifty of them, or all when there are fewer |
| Home.TopTickersAreTop | components/Home.jsx:235-238 | A USDT ticker left out has no more volume than any listed one |
| Home.FewTickersAllListed | components/Home.jsx:235-238 | With at most 50 USDT tickers every one of them is listed |
| Home.BaseSymbolDropsSuffix | components/Home.jsx:240 | Replacing the first "USDT" shortens the symbol by four, and gives the symbol without its suffix when "USDT" occurs only there |
| Home.CoinOf | components/Home.jsx:239-243 | A coin keeps the ticker's price and change, and drops four characters from a USDT symbol |
| Home.TopCoins | components/Home.jsx:235-243 | One coin per top ticker, in the same order |
| Markets.FetchedList | components/Markets.jsx:18-20 | Every kept pair is quoted in USDT and has a positive price |
| Markets.FetchedListExact | components/Markets.jsx:19 | The list holds, in feed order, exactly the USDT pairs with a positive price, each as many times as the feed has it |
| Markets.BaseCurrency | components/Markets.jsx:39-42 | One trailing "USDT" or "BUSD" is removed, and any other symbol is unchanged |
| Markets.BaseCurrencyOfPair | components/Markets.jsx:39-42 | Appending a quote currency and taking the base gives the base back |
| Markets.OneSuffixRemoved | components/Markets.jsx:41 | Only one suffix goes: "BTCUSDTUSDT" gives "BTCUSDT" and "BUSDUSDT" gives "BUSD"; "ETHBTC" is unchanged |
| Markets.LogoUrlEmbedsBase | components/Markets.jsx:45-48 | The logo address is the fixed prefix, the base currency and the token |
| Markets.Search | components/Markets.jsx:51-53 | Every shown pair's lower-cased symbol contains the lower-cased query |
| Markets.SearchExact | components/Markets.jsx:51-53 | The search keeps, in order, exactly the matching pairs, each as many times as the list has it |
| Markets.EmptySearchKeepsAll | components/Markets.jsx:51-53 | An empty search shows the whole list |
| Markets.SearchIgnoresQueryCase | components/Markets.jsx:52 | Upper-casing the query does not change the result |
| AdminDashboard.Split | Backend/AdminDashboard.jsx:37-38 | Splitting yields at least one piece and no piece holds the separator |
| AdminDashboard.JoinSplit | Backend/AdminDashboard.jsx:37-38 | Joining the pieces with the separator gives the path back |
| AdminDashboard.SplitJoin | Backend/AdminDashboard.jsx:37-38 | Splitting joined separator-free pieces gives the pieces back |
| AdminDashboard.SegmentsOfJoin | Backend/AdminDashboard.jsx:37-39 | The segments of a path are its pieces without the empty and "admin" ones, in order |
| AdminDashboard.Segments | Backend/AdminDashboard.jsx:37-39 | No kept segment is empty, "admin", or holds a slash |
| AdminDashboard.AdminSegmentsDropped | Backend/AdminDashboard.jsx:39 | "/admin/recharge" has the single segment "recharge" |
| AdminDashboard.RootHasNoSegments | Backend/AdminDashboard.jsx:39 | "/admin/" has no segment |
| AdminDashboard.EveryAdminSegmentDropped | Backend/AdminDashboard.jsx:39 | Every "admin" segment is dropped, not only the first |
| AdminDashboard.FindItem | Backend/AdminDashboard.jsx:41 | The first menu item whose path contains the segment, or none iff no path does |
| AdminDashboard.CrumbLabel | Backend/AdminDashboard.jsx:41-43 | The matched item's label, or the segment itself when no path contains it |
| AdminDashboard.ContainmentMatches | Backend/AdminDashboard.jsx:41 | Matching is by containment: "users" and "user" both label as 用户信息 |
| AdminDashboard.MissingCharNoMatch | Backend/AdminDashboard.jsx:41 | A segment with a character absent from a path is not contained in it |
| AdminDashboard.MenuPathsAreWords | Backend/AdminDashboard.jsx:9-17 | Every menu path is made of lower-case letters and slashes |
| AdminDashboard.IdSegmentLabelsItself | Backend/AdminDashboard.jsx:41-43 | A segment starting with a digit matches no menu item and labels itself |
| AdminDashboard.RechargeLabel | Backend/AdminDashboard.jsx:41-43 | The recharge segment is labelled 充值管理 |
| AdminDashboard.CrumbsOf | Backend/AdminDashboard.jsx:40-45 | One crumb per segment, labelled by the menu, whose path joins the segments up to it |
| AdminDashboard.Breadcrumbs | Backend/AdminDashboard.jsx:37-46 | One crumb per kept segment, in order, with its label and its nested path |
| AdminDashboard.CrumbPathExtends | Backend/AdminDashboard.jsx:44 | Each crumb's path is the previous crumb's path, a slash and its segment |
| AdminDashboard.CrumbPathsNest | Backend/AdminDashboard.jsx:44 | The first crumb's path is "/admin/" and its segment, and each later path extends the one before it |
| AdminDashboard.SingleCrumb | Backend/AdminDashboard.jsx:40-45 | A single segment gives one crumb pointing to "/admin/" and the segment |
| AdminDashboard.Render | Backend/AdminDashboard.jsx:117-128 | Only the last crumb is shown without a link, every other crumb links to its path, and all labels are kept |
| AdminDashboard.Guard | Backend/AdminDashboard.jsx:26-29 | The dashboard redirects to the admin login iff the flag is not "true" |
| AdminDashboard.Logout | Backend/AdminDashboard.jsx:31-34 | Logout removes the flag, keeps every other entry, and navigates to the admin login |
| AdminDashboard.LogoutLocksOut | Backend/AdminDashboard.jsx:26-34 | After logout the guard redirects to the admin login |
| Common.OrZero | components/Positions.jsx:45 | `parseFloat(x) \|\| 0`: NaN reads as 0, any number as itself |
| Common.Trim | components/Withdraw.jsx:92 | The trimmed string neither starts nor ends with white space, where white space is what `trim` removes (ASCII, no-break, line separators and every Unicode space separator), and it occurs in the input |
| Common.TrimParts | components/Withdraw.jsx:92 | Trimming removes white space and nothing else: the input is its leading white space, the trimmed string and its trailing white space, in that order |
| Common.TrimBlankIff | components/Withdraw.jsx:93 | The trimmed string is empty iff the input is all white space |
| Common.TrimIdempotent | components/Withdraw.jsx:92 | Trimming twice is trimming once |
| Common.TrimPadded | components/Withdraw.jsx:92 | A string with no white space at its ends is recovered from it with one white-space character on either side |
| Common.ToLower | components/Trade.jsx:116 | Lower-casing keeps the length and lowers each character |
| Common.ToUpper | components/Register.jsx:48 | Upper-casing keeps the length and raises each character |
| Common.IndexOf | components/Home.jsx:240 | The first position where the pattern occurs, or none iff it does not occur |
| Common.ReplaceFirst | components/Home.jsx:240 | A string without the pattern is unchanged. Otherwise the first occurrence, and only it, is replaced |
| Common.Filter | components/Trade.jsx:115 | The filter keeps only passing elements |
| Common.FilterKeepsPassing | components/Markets.jsx:51 | The filter keeps, in order, exactly the passing elements, each as many times as the input holds it |
| Common.FilterAll | components/Markets.jsx:51-53 | When every element passes, the filter keeps the list |

## Left out

- Database, network and exchange I/O (`supabase`, `.rpc`, `fetch`) are not modelled. Reads are inputs and writes are map updates of the `Ledger` tables, because the service is outside the program.
- Realtime subscriptions, timers (`setInterval`) and the channel life cycle are left out, because they are framework plumbing. Only the state update inside each callback is modelled (`OnBalancePayload`, `OnDirectInvitee`, `NextBanner`).
- The `Promise.all` writes of settlement and of the stock list's counts run concurrently in the source. The model issues them one after another, because Dafny code here is sequential.
- The bodies of the server functions `get_referral_tree` and `increment_balance` are not available. Tree rows are an input and `increment_balance` is read as adding the amount to the balance.
- Floating point is not modelled: money is `real`, so rounding, `toFixed` formatting and `Infinity` are not captured.
- `parseFloat` and `Number` of text are not modelled. Their result is a `JsNumber` parameter, NaN or a number.
- Clock and time zones (today's date range, row time stamps) and the browser's date formatting are left out, because they depend on the environment.
- `Math.random` is replaced by a sequence of draws, because randomness cannot be modelled otherwise.
- Case folding covers ASCII letters only; symbols, names and codes outside ASCII are not folded.
- Strings are sequences of Unicode characters, while JavaScript's `length` and `slice` count UTF-16 code units. A character outside the Basic Multilingual Plane, such as an emoji, counts once here and twice in the source. The members below are affected, and each gives a different verdict on such input:
  - `Withdraw.RequestCheck` and `Withdraw.SaveCheck` (through `IsTrc20`): the 34-long address test counts characters.
  - `Register.FormCheck` and `Login.LoginCheck`: the ten-long phone test counts characters.
  - `RechargeManagement.TxDisplay`: the 12-long test and the six-long slices count characters, so they never split a surrogate pair as JavaScript can.
  - `Invite.MaskPhone`: the 8-long test and the three- and four-long slices count characters.
- localStorage is a map of strings, and navigation and tab switches are returned values.
- JSX rendering, styling, clipboard copies and alerts are left out, except the breadcrumb link rule (`Render`) and the per-row actions. Alerts appear only as outcomes.
- The stock list's bound and pending counts, the mentor, channel and user lists, deletion and editing of stocks, and the referral-code panel are left out. They are reads and displays with no rule.
- The market list's sort by market cap is left out. The exchange's 24-hour tickers carry no market cap, so the comparator compares NaN with NaN and the list keeps feed order; `FetchedList` keeps that order.
- `StockManagement.HandleSettle` returns `UndefinedProfit` for a buy price of 0 instead of writing the non-finite profits JavaScript would compute, because `real` has no infinity.
- `StockManagement.HandleSettle` writes user balances with the corrected retrying write (see Findings). The source's compare-and-set is modelled separately by `Settlement.CasWrite` and `Settlement.WriteUsersAsIssued`.
- `StockManagement.AddStockPage.HandleAddStock` takes the parsed mentor id and prices as parameters, so a NaN price in the inserted row is not captured.
- `Home.NextBanner` requires at least one banner, because the source's list has two and `% 0` would give NaN.
- `Home.SortBy` is proved to be a sorted permutation, but not stable. The source's `Array.prototype.sort` is stable, and ties are left in unspecified order here.
- `Home.TopTickers` reads quote volumes as numbers, so an unparseable volume's effect on the sort is not captured.
- `Withdraw.WithdrawPage` starts with an empty saved address. Loading it from the user's row on mount is a read and is left out.
- `Withdraw.WithdrawPage.SaveAddress` returns the check's verdict instead of alerting it.
- `Login.LoginPage.HandleLogin` and `Register.RegisterPage.HandleRegister` take the rows the database's lookup returned as an input. `IsPhoneAnswer` and `IsLookupAnswer` state what a correct answer is, and `InviterIsTheHolder` what such an answer resolves to.

## Findings

| source | as written | input that shows it | evidently intended | confidence | as-written member | corrected member |
|---|---|---|---|---|---|---|
| Backend/StockManagement.jsx:241-254 | The balance update is filtered on the balances read with the batch. A row changed since that read matches no row, which the database reports as success without an error, so the user's profit and released principal are silently lost. The bindings are already settled and the stock then becomes settled too | A user reads balance 100, available 0. Another write sets available to 50 before the update, and the batch releases 1000 with profit 10. The update matches no row and the user keeps 100 / 50 | The lock was meant to prevent overwriting a concurrent change (the comment says so, and the error path asks to retry). The change should land on the current row, by retrying on a conflict | not executed | Settlement.CasWriteDropsChangeOnConflict | Settlement.WriteUsersRetrying |
