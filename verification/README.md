# Money safety of the shop, in Dafny

A model of the parts of the shop that decide whether money is spent once, in the right amount and to
the right place, with proofs of what they promise. `dafny verify dfyconfig.toml` checks everything.

| subject | modules |
|---|---|
| What counts as the same purchase: the canonical text of a request and the scope it is stored under | `Utf16`, `JsonText`, `JsonScan`, `CanonicalIntent`, `CheckoutScope`, `ScopeEdits`, `ScopeSample` |
| One idempotency key per purchase: storage, and the checkout as steps of any number of tabs | `IntentStore`, `CheckoutProtocol`, `CheckoutOneTab`, `CheckoutFresh`, `CheckoutInFlight` |
| The invoice checksum (BIP-173) and the address check (ISO/IEC 7064, MOD 97-10) | `BitXor`, `Bech32`, `ChecksumField`, `Bolt11`, `InvoiceGate`, `InvoiceForm`, `NimiqAddress`, `AddressWriting`, `AddressSample` |
| The cashback ledger over twelve months | `CashbackLedger`, `CashbackLaws`, `CashbackTheorems`, `CashbackEstimator`, `CashbackTerms`, `CashbackSplit`, `CashbackRace`, `CashbackSpending` |
| The cart under its country, count and money ceilings | `CartRows`, `CartStore`, `CartPrices`, `CartLaws`, `CartTheorems`, `CartEffects`, `CartStorage` |
| Money labels, printed and parsed on both sides | `MoneyNumber`, `MoneyDecimals`, `MoneyLabel`, `MoneyTokens`, `MoneyGrouping`, `MoneyGo`, `MoneyTs` |
| The staker ladder | `StakerTiers`, `TierRates` |
| The public catalog and its cards | `CatalogRows`, `CatalogFilter`, `CatalogMarks`, `CatalogNames`, `CatalogCards`, `CatalogOrder`, `CatalogGrid` |
| Payout memos, brand tiles | `Utf8`, `Utf8Codes`, `PayoutMemo`, `MemoTexts`, `BrandTile`, `TileMean` |
| The payment-identifier queue, the tunnel supervisor | `PaymentQueue`, `PaymentRuns`, `PaymentRecords`, `TunnelSupervisor`, `TunnelRestarts`, `TunnelKills` |
| What a balance can afford | `Affordability` |

Code that changes state is a class or a method with loops, proved against a recursive specification; the
theorems are about the specification. What the specification computes is said a second time apart from
its definition: constants and names are written out in the statements, and small known cases are proved
from start to end. Numbers of JavaScript and Go floats are reals.

## What the proofs say about the code

Some promises hold only under a condition. The code is modelled as it is; for each there is a run or an
input that breaks the promise, and a theorem under (or equivalent to) the condition.

* **A late reply can undo a key rotation.** `saveIntentQuote` writes back the intent a request was sent
  under. If the key was rotated while the request was in flight, the reply puts the old key back, and one
  settled order can cost three keys (`StaleReplyCostsAKey`). The keys in use between two removals agree
  throughout a run exactly when no reply puts its key over another one that is in use (`OneKeyAlwaysIff`);
  a settled order rotates its scope once unless a reply puts an order that was already released over
  another key (`SettledOrdersRotateOnce`). In one tab no reply does either (`RepliesMeetTheirKey`).
* **A second click shares the first.** A call for a slot that has one under way changes nothing, over every
  run (`SecondCallShared`); a posted request waits for its own answer, which is stored under its own key
  (`PostingWaits`, `AnswerIsStored`). So in one tab the keys of a scope number at most one, plus the settled
  orders, plus the fresh calls made while none was under way (`KeysByClicks`).
* **A fresh decision can replay the old order.** api.ts, lines 613-618 says it cannot. Between the
  removal of the key and the load of the new one, another tab's reply can put the old key back
  (`FreshReplays`). The new request goes out under a new key exactly when no other call planted an entry
  in between that stayed (`FreshKeyIff`); in one tab it always does (`OneTabFreshIsNew`).
* **A new cart row escapes the money clamp.** `addToCart` lowers `addQty` to the room left, but the row it
  appends was built with the quantity before (cartStore.tsx, lines 374-399). Two units of a 60 dollar item
  fit an empty cart capped at 100 dollars. A package row's key also ignores the requested value, so a cheap
  request can multiply a dear row (`OtherPriceEscapesTheRoom`). After an add the cart fits exactly when what
  the touched row is left with is within the maximum at that row's own price (`AddFitsIff`), and a run in
  which every add is of that kind keeps the ceiling (`CarefulRunsKeepMoney`).
* **A spent daily allowance reads as none.** The cart is told 0 both when the account has no limit and when
  every order is used (cartStore.tsx, line 324). It stays within the orders left exactly when some are left
  or it is empty (`AllowanceKeptIff`, `SpentAllowanceIsNone`).
* **Truncating the ladder can lower an earned rate.** The comment at models.go, lines 286-289 says it
  cannot; a ninth, dearer rung is dropped (`TruncationCanCost`). Every rate is kept exactly when no dropped
  rung pays more than the best kept one.
* **Exchanged characters in an address** are caught except for the pairs B1, M2 and X3; `ExchangeEscapes`
  is a valid address that stays valid.
* **The two amount readers part** on numbers that keep two decimal points, such as 1.5.2: the backend reads
  0, the storefront 1.5. They agree exactly when one decimal number is left after grouping, or the number
  the text starts with is written in zeros (`ReadersAgreeIff`).
* **The storefront's clamp leaves labels alone whose number has non-ASCII digits**, even above the cap
  (`ClampedWithinIff`); a hundred in Arabic digits passes a cap of five (`ForeignDigitsEscape`).
* **A clamp loses the grouping of labels from a million up.** Both comments promise that it is kept (fx.go,
  lines 239-243, format.ts, lines 300-302), but the separator is only recognised when three characters follow
  its first occurrence. The amount is written in the label's grouping exactly when the label had fewer than
  seven digits or the amount has fewer than four (`GroupingKeptIff`, `MillionsLoseGroups`).
* **Two cards can show the same family and country** (`TwoCardsShowTheSame`). A card shows the key of its
  group exactly when its row has a country code, no country, or the shop's own (`CardsShowTheirGroupsIff`).
* **A card can stand beside an excluded row of its own group**, because the filter does not trim the label
  of a link and the grid does: "[ X ](u)" and "X" are two families to one and a single group to the other
  (`CardOverExcluded`). A group has a card exactly when one of its rows belongs to a family without an
  excluded row (`GroupHasCardIff`).
* **Malformed payment identifiers do not survive.** They are recorded without a check but refused when
  storage is read (`SurvivesReloadIff`, `MalformedIsLost`).
* **The tunnel cooldown starts at an exit, not at a kill.** Two kills are more than the cooldown apart when a
  respawn was scheduled between them (`KillsApart`); otherwise four more dead probes kill again at any later
  time (`KillsAgainIff`), eighty seconds after the first kill by default (`KillsCloserThanCooldown`).
* **A fresh child can be killed for its predecessor's address** (`KillBeforeOwnAddress`). The dead probes
  behind a kill ask the killed child's own address exactly when that was the current one at the first of
  their heartbeats and nothing was spawned since (`KillIsOwnIff`, `KillTraced`).

The comment at cashbackCalc.ts, lines 150-155 says why buying less must not lower the boost rate. It does
not, for any two spends, also where the larger one is simulated as more purchases
(`SpendingNeverRaisesTheRate`). A purchase of n and one of n + 1 a month are both made of small steps,
n + 1 and n of them, and the ledger with fewer purchases stays ahead at every purchase (`CashbackSplit`,
`CashbackRace`).

## Model

| member | source | states |
|---|---|---|
| Utf16.SortDecides | src/lib/checkoutIntent.ts:9-12 | Sorting by UTF-16 code units gives equal sequences exactly for equal multisets of strings. |
| JsonText.QuoteUnique | src/lib/checkoutIntent.ts:13-15 | Text that starts with a quoted string can be read in one way only: same string, same rest, surrogate halves included. |
| JsonScan.JoinUnique | src/lib/checkoutIntent.ts:9-13 | Lists of closed texts joined by commas are equal only when the lists are. |
| JsonScan.NoBarBeforeSuffix | src/lib/api.ts:628 | No canonical text ends in a bar followed by a canonical text, so a scope cannot be split at two places. |
| CanonicalIntent.CanonicalDecides | src/lib/checkoutIntent.ts:8-16 | Two values have the same canonical text exactly when they are equal up to key order, undefined fields and, at every depth, array order. |
| CheckoutScope.PayloadMeaning | src/lib/checkoutIntent.ts:115-122 | Dropping the ignored fields at every depth changes the meaning by exactly those fields. |
| CheckoutScope.ScopeDecides | src/lib/api.ts:628 | Two requests share a scope exactly when owner, endpoint and the request without the ignored fields agree; for any owner text. |
| ScopeEdits.PutMeaning | src/lib/checkoutIntent.ts:8-16 | Setting a field of an object changes its meaning exactly when its name counts and its meaning there changes. |
| ScopeEdits.EditMeaning | src/lib/checkoutIntent.ts:115-122 | An edit anywhere in a request keeps its meaning exactly when the way to it passes an ignored name or the field means what it meant. |
| ScopeEdits.ScopeByNames | src/lib/checkoutIntent.ts:115-122 | Two requests of one owner to one endpoint share a scope exactly when they agree but for cashback_code, gift_channel, gift_message, gifter_identicon, coin, network and ack_active_checkout. |
| ScopeEdits.EditDecides | src/lib/api.ts:628 | Changing, adding or removing any field, at any depth, keeps the scope exactly when one of these seven names leads to it or its meaning stays. |
| ScopeSample.ScopeText | src/lib/api.ts:628 | The scope of a small request to /quotes, character by character, whatever coin it names. |
| ScopeSample.PlainEscape | src/lib/checkoutIntent.ts:13-15 | Text without controls, quotation marks, backslashes and surrogates is written as it is. |
| ScopeSample.TwoFields | src/lib/checkoutIntent.ts:12-15 | The text of an object: fields by key, with colons, a comma and curly brackets. |
| ScopeSample.TwoItems | src/lib/checkoutIntent.ts:9-11 | The text of an array is the same for both orders. |
| IntentStore.SurvivingReleases | src/lib/checkoutIntent.ts:96-103 | What the downward walk leaves is the map without exactly the checkouts of that order. |
| IntentStore.BrowserStorage.SetItem | src/lib/checkoutIntent.ts:42-45 | Writes one checkout entry; every other checkout and foreign entry stays. |
| IntentStore.BrowserStorage.RemoveItem | src/lib/checkoutIntent.ts:92 | The entry with that key is cut out of the list and nothing else moves. |
| IntentStore.BrowserStorage.LoadOrCreate | src/lib/checkoutIntent.ts:32-52 | An existing key is returned and storage is untouched; otherwise the proposed key is stored first; a key shorter than 16 is refused. |
| IntentStore.BrowserStorage.SaveQuote | src/lib/checkoutIntent.ts:54-56 | The scope's entry becomes the given intent with the order's id. |
| IntentStore.BrowserStorage.Forget | src/lib/checkoutIntent.ts:91-93 | Exactly the scope's entry is gone. |
| IntentStore.BrowserStorage.ReleaseForQuote | src/lib/checkoutIntent.ts:96-103 | The downward loop removes every entry of the order, skips none, and keeps the others in place. |
| CheckoutProtocol.KeysBounded | src/lib/api.ts:621-656 | Over every run of any tabs: a key is in storage before it is sent, and the keys sent for a scope number at most one more than the removals of its entry. |
| CheckoutProtocol.RemovalCauses | src/lib/api.ts:634-648 | An entry is removed exactly by a fresh decision for its scope, or by a release or rebuy of the order it points at; no failed request removes one. |
| CheckoutProtocol.SharesKeyIff | src/lib/api.ts:649-653 | A step keeps the agreement of the keys in use since the last removal exactly when it is not a reply that puts its key over another stored one that is in use. |
| CheckoutProtocol.OneKeyAlwaysIff | src/lib/api.ts:621-656 | Over every run of any tabs: those keys agree throughout exactly when no reply of the run does so. |
| CheckoutProtocol.RetriesShareKey | src/lib/api.ts:621-656 | Then all keys sent for a scope between two removals are the same, whichever tabs sent them; a reply may re-plant an entry that was removed. |
| CheckoutProtocol.SettledOrdersRotateOnce | src/lib/api.ts:645-648 | Tabs converge: the keys sent for a scope number at most one, plus its fresh decisions, plus the distinct settled orders that released it, unless a reply puts an order already released over another key. |
| CheckoutProtocol.StaleReplyCostsAKey | src/lib/checkoutIntent.ts:54-56 | A run in which one settled order, no fresh decision and one stale reply lead to three keys. |
| CheckoutOneTab.RepliesMeetTheirKey | src/lib/api.ts:621-656 | In one tab no reply overwrites another key, whatever is rebought while a request is under way. |
| CheckoutOneTab.OneTabSharesKey | src/lib/api.ts:621-656 | So one tab sends one key per scope between two removals. |
| CheckoutOneTab.OneTabOneKeyPerPurchase | src/lib/api.ts:621-656 | With fresh keys and honest answers, at most one plus its fresh decisions plus the settled orders in all. |
| CheckoutFresh.FreshKeyIff | src/lib/api.ts:631-634 | A call that dropped the entry goes out under its new key exactly when no other call planted an entry before the load that stayed. |
| CheckoutFresh.OneTabFreshIsNew | src/lib/api.ts:631-634 | In one tab it always does. |
| CheckoutFresh.FreshReplays | src/lib/api.ts:613-618 | A run in which a fresh decision sends the key of the order it was to leave. |
| CheckoutInFlight.SecondCallShared | src/lib/api.ts:629-630 | Over every run: calling for a slot that has a call under way is as if nobody had called. |
| CheckoutInFlight.OthersLeaveIt | src/lib/api.ts:631-656 | No event but its own steps, its failure and a reload of its tab moves a slot's call. |
| CheckoutInFlight.PostingEndsIff | src/lib/api.ts:647-653 | A posted request leaves its slot exactly by its answer, its failure or a reload of its tab. |
| CheckoutInFlight.PostingWaits | src/lib/api.ts:647-653 | Over every run it waits until then with the intent it was sent under. |
| CheckoutInFlight.AnswerIsStored | src/lib/api.ts:649-651 | The answer, whenever it comes, stores its order under the key that was sent. |
| CheckoutInFlight.RequestRuns | src/lib/api.ts:631-652 | From load to answer, with anything of other slots in between: the key found or minted is the key sent and stored. |
| CheckoutInFlight.RetryRuns | src/lib/api.ts:643-648 | An entry whose order is not settled is sent again under its key. |
| CheckoutInFlight.SettledReleases | src/lib/api.ts:643-645 | If it is settled, every entry of that order goes and the call loads again. |
| CheckoutInFlight.ReloadedRuns | src/lib/api.ts:645-648 | After a release the call sends the key it then finds or mints, without asking again. |
| CheckoutInFlight.ShortKeyRefused | src/lib/checkoutIntent.ts:35-40 | A stored key shorter than sixteen characters ends the call; nothing is sent or stored. |
| CheckoutInFlight.CallStarts | src/lib/api.ts:631-634 | A call on an idle slot loads; a fresh one first drops the entry of its scope and of no other. |
| CheckoutInFlight.KeysByClicks | src/lib/api.ts:629-656 | In one tab the keys of a scope number at most one, plus its settled orders, plus the fresh calls made while none was under way. |
| Bech32.Polymod | src/lib/pay.ts:22-31 | The nested loops compute the checksum value of a symbol sequence of any length. |
| Bech32.StepLinear | src/lib/pay.ts:25-29 | One step is linear over exclusive or. |
| Bech32.PolyBelow | src/lib/pay.ts:22-31 | The running value stays below 2^30, so no 32-bit operator wraps. |
| Bech32.GeneratorsIndependent | src/lib/pay.ts:23 | The low bits of the five generators form an invertible matrix over GF(2). |
| Bech32.StepZeroInjective | src/lib/pay.ts:25-29 | Feeding a zero symbol never turns a non-zero state into zero. |
| Bech32.BurstDetected | src/lib/pay.ts:22-31 | Symbol strings that differ, and only inside six consecutive positions, have different values, at any length. |
| ChecksumField.ConstantsArePowers | src/lib/pay.ts:23 | The five constants are BIP-173's generator times 1, a, a^2, a^3 and a^4 over GF(32). |
| ChecksumField.PolyIsRemainder | src/lib/pay.ts:22-31 | The checksum value is the remainder of its start and the symbols, of any number, on division by x^6+29x^5+22x^4+20x^3+21x^2+29x+18 over GF(32). |
| ChecksumField.Division | src/lib/pay.ts:22-31 | That remainder is one: every polynomial is a multiple of the generator and its remainder. |
| ChecksumField.AcceptedIff | src/lib/pay.ts:22-54 | The value is 1 exactly when the polynomial that starts with 1 leaves the remainder 1. |
| Bolt11.ChecksumOk | src/lib/pay.ts:34-54 | The loops accept exactly the strings with a separator, at least six data characters, valid characters and checksum value 1. |
| Bolt11.StartChecksum | src/lib/pay.ts:40-47 | The loops over the readable part reject a character outside 33 to 126 and otherwise give its high bits, a zero and its low bits. |
| Bolt11.FinishChecksum | src/lib/pay.ts:48-53 | The last loop rejects a character outside the alphabet and otherwise decides by the checksum value. |
| Bolt11.BurstRejected | src/lib/pay.ts:34-54 | Corrupting an accepted invoice inside six consecutive data characters, without planting a separator, makes it rejected. |
| Bolt11.AcceptedSplits | src/lib/pay.ts:34-39 | Every accepted string falls into the parts the corruption theorem speaks about. |
| Bolt11.ExactlyOneTail | src/lib/pay.ts:34-54 | For every human-readable part and payload exactly one six-character tail is accepted. |
| InvoiceGate.Bolt11ChecksumOk | src/lib/pay.ts:20-54 | The gate with its own alphabet accepts exactly what the theorems speak about. |
| InvoiceGate.CharsetProper | src/lib/pay.ts:20 | The alphabet has 32 distinct characters in the order of BIP-173, none the separator. |
| InvoiceGate.KnownString | src/lib/pay.ts:20-54 | The gate accepts a12uel5l, an example of BIP-173. |
| InvoiceForm.GateIff | src/lib/pay.ts:34-54 | Accepted exactly: a readable part of characters from ! to ~, a one, at least six characters of qpzry9x8gf2tvdw0s3jn54khce6mua7l, and words that divide to one. |
| InvoiceForm.NoReadablePart | src/lib/pay.ts:36-37 | Without a one after the first character a string is refused. |
| InvoiceForm.CaseIgnored | src/lib/pay.ts:35 | Capitals and small letters pass or fail together. |
| InvoiceForm.PrintedExample | src/lib/pay.ts:34-54 | A12UEL5L passes, as BIP-173 prints it. |
| NimiqAddress.Mod97 | src/lib/stake.ts:133-137 | The loop computes the streamed remainder. |
| NimiqAddress.StreamedIsValueMod97 | src/lib/stake.ts:133-137 | Streaming is the remainder of the whole number, for any number of digits. |
| NimiqAddress.Iso7064Check | src/lib/stake.ts:144-153 | The loop moves four characters, expands letters and returns 98 minus the remainder as two digits. |
| NimiqAddress.NormalizeValidator | src/lib/stake.ts:160-177 | Returns something exactly when the compact text has the shape of an address and its number is 1 modulo 97; the result is valid and its own compact form. |
| NimiqAddress.ValidIffCongruent | src/lib/stake.ts:160-165 | An address is valid exactly when its check digits denote 2 to 98 and the rearranged number is 1 modulo 97. |
| NimiqAddress.ExactlyOneCheck | src/lib/stake.ts:160-165 | Every body has exactly one pair of check characters. |
| NimiqAddress.SubstitutionDetected | src/lib/stake.ts:160-165 | Replacing one body digit by a digit or letter by a letter is always caught. |
| NimiqAddress.TranspositionDetectedIff | src/lib/stake.ts:160-165 | Exchanging adjacent body characters is caught exactly when they are not B1, M2 or X3 in either order. |
| NimiqAddress.ExchangeEscapes | src/lib/stake.ts:160-165 | A valid address ending in B1 that is as valid ending in 1B. |
| AddressWriting.SpaceIgnored | src/lib/stake.ts:129-131 | White space in an address does not matter, wherever it stands. |
| AddressWriting.CaseIgnored | src/lib/stake.ts:129-131 | Nor does the case of its letters. |
| AddressWriting.WrittenAsUsual | src/lib/stake.ts:129-131 | A valid address in small letters and groups of four is read as that address. |
| AddressSample.PoolAddress | src/lib/stake.ts:133-165 | The staking pool's address NQ49 N8MB XYCR XBUP 404C KXKK L49M A7BT F082 is valid, however it is written. |
| CashbackLedger.Simulate | src/lib/cashbackCalc.ts:136-157 | The nested loop over months and purchases computes the ledger of the last month. |
| CashbackLedger.BuyOnce | src/lib/cashbackCalc.ts:143-148 | One purchase: credit up to the cap, pay the capped rate, debit. |
| CashbackLedger.Boost | src/lib/cashbackCalc.ts:129-160 | The boost and its rate are those of the last simulated month, or zero when a factor is missing. |
| CashbackLaws.PurchaseBounds | src/lib/cashbackCalc.ts:142-149 | The balance stays within 0 and the cap and payments are never negative, at every purchase. |
| CashbackLaws.CarriedBounds | src/lib/cashbackCalc.ts:139-157 | The balance carried into every month stays within 0 and the cap. |
| CashbackLaws.MonthsConserve | src/lib/cashbackCalc.ts:139-157 | Credited = paid + clipped at the cap + month-end haircut + balance, over any number of months. |
| CashbackLaws.PaidByMonth | src/lib/cashbackCalc.ts:139-157 | The paid total of the books grows every month by what the simulated month paid: what is conserved is what is paid. |
| CashbackLaws.CreditedInAll | src/lib/cashbackCalc.ts:143 | The credited total is the credit of one purchase, added for every purchase of every month. |
| CashbackLaws.TimesIsProduct | src/lib/cashbackCalc.ts:143 | Repeated addition of the credit is its product with the number of purchases. |
| CashbackLaws.LedgersOrdered | src/lib/cashbackCalc.ts:136-157 | Two runs, one with more credit and no larger purchases: its balance and rates are never lower, at every purchase of every month; nor, for equal purchases, what it paid. |
| CashbackTheorems.PurchaseWithinDayCap | src/lib/cashbackCalc.ts:131-134 | Every simulated purchase is within the day cap. |
| CashbackTheorems.BoostWithinCap | src/lib/cashbackCalc.ts:145-159 | The boost is never negative and never above the capped rate on the eligible spend. |
| CashbackTheorems.BoostIsDisplayedRate | src/lib/cashbackCalc.ts:145-159 | While a purchase is no larger than the display basis, the boost is exactly the displayed rate on the eligible spend. |
| CashbackTheorems.MoreStakeNeverPaysLess | src/lib/cashbackCalc.ts:82-162 | More stake or more loyalty days never lowers boost, displayed rate or total. |
| CashbackTheorems.MoreStakeNeverLowersLedger | src/lib/cashbackCalc.ts:82-157 | More stake or more loyalty days never lowers the balance at any simulated purchase. |
| CashbackRace.FewerShowMore | src/lib/cashbackCalc.ts:136-157 | Of two ledgers where the one with fewer purchases stays ahead and rates flatten, its mean rate is no lower in any month. |
| CashbackSpending.OneMorePurchase | src/lib/cashbackCalc.ts:131-159 | Simulating the same spend as one more purchase never raises the displayed rate. |
| CashbackSpending.SpendingNeverRaisesTheRate | src/lib/cashbackCalc.ts:131-159 | Spending more never raises the displayed rate, whatever the number of purchases. |
| CashbackEstimator.EstimateCashback | src/lib/cashbackCalc.ts:91-162 | Base and boost add up to the total and nothing is negative; the eligible spend is the least of spend, monthly cap and thirty daily caps; the boost is within the capped rate on each of them, and within the display basis exactly the displayed rate on the eligible spend. |
| CashbackEstimator.EligibleIsLeast | src/lib/cashbackCalc.ts:111-126 | The eligible spend is the least of the spend, the monthly cap and thirty daily caps. |
| CashbackEstimator.BoostCapped | src/lib/cashbackCalc.ts:109-158 | The boost is within the capped rate on the monthly cap, on the spend and on thirty daily caps. |
| CashbackTerms.BaseIsHigher | src/lib/cashbackCalc.ts:97-102 | With a stake the base rate is the higher of the operator's and the stakers', otherwise the operator's. |
| CashbackTerms.LoyaltyPoints | src/lib/cashbackCalc.ts:82-89 | Loyalty starts at its start, is full after the ramp, and grows evenly in between. |
| CashbackTerms.LoyaltyDefaults | src/lib/cashbackCalc.ts:84-88 | A missing ramp is five years, and a ramp is at least a day. |
| CashbackTerms.NoCreditBelowMinimum | src/lib/cashbackCalc.ts:114-120 | Below the minimum stake nothing is credited. |
| CashbackTerms.YearOfCredit | src/lib/cashbackCalc.ts:103-119 | Twelve credits are the year's rewards, at the pool fee, the credit share and the loyalty. |
| CashbackTerms.FewestPurchases | src/lib/cashbackCalc.ts:132-134 | As few purchases as the daily cap allows, but no fewer than four and no more than thirty. |
| CashbackTerms.SampleMonth | src/lib/cashbackCalc.ts:135-159 | Four purchases of ten dollars, credited two each: a month pays 69 cents and shows 1.725 percent. |
| CashbackTerms.CarryKeeps | src/lib/cashbackCalc.ts:150-156 | What a month starts with is the carry share of what the last one left. |
| CartRows.RowIsQtyTimesUnit | src/lib/cartStore.tsx:96-104 | On every branch a row costs its quantity times one unit. |
| CartPrices.ProportionalToRate | src/lib/cartStore.tsx:96-99 | With a rate for its currency a row's price is proportional to that rate. |
| CartPrices.ProportionalToValue | src/lib/cartStore.tsx:96-99 | And to its value. |
| CartPrices.RateOfOne | src/lib/cartStore.tsx:96-99 | At a rate of one it is the value times the quantity. |
| CartPrices.OnlyRateAndValue | src/lib/cartStore.tsx:96-99 | Other rates, the bitcoin price, the coin amount and the fallback price do not move it. |
| CartPrices.CoinsByBitcoin | src/lib/cartStore.tsx:100-101 | Without a rate a coin amount is priced by the bitcoin price, proportional to both. |
| CartPrices.OnlyCoins | src/lib/cartStore.tsx:100-101 | Then value, currency and fallback price do not move it. |
| CartPrices.FallsBack | src/lib/cartStore.tsx:102-103 | Without rate and coins dollars are dollars, and everything else costs its fallback price. |
| CartPrices.CurrencyCase | src/lib/cartStore.tsx:97 | The case of a currency code does not matter, and none is the dollar. |
| CartPrices.YenCardFits | src/lib/cartStore.tsx:99 | A 5000 yen card at 0.0066 costs 33 dollars: it enters an empty cart capped at 100, and three of it fit. |
| CartPrices.KeyIff | src/lib/cartStore.tsx:61-63 | Rows share a key exactly when product, choice and country agree: the same package, or no package and values that print alike. |
| CartRows.MaxQtyIsLargestFit | src/lib/cartStore.tsx:137-145 | A quantity is within the maximum exactly when its price beside the other rows is within the cap and 1e-9 of a unit. |
| CartStore.Store.Write | src/lib/cartStore.tsx:354-358 | Writing stores the rows, and the store then holds what reading them back gives. |
| CartStore.Store.Synchronise | src/lib/cartStore.tsx:342-346 | The rows become what storage gives back: storable, at most 100, cleaned. |
| CartStore.Store.AddToCart | src/lib/cartStore.tsx:360-400 | The four outcomes in their order, and the cart after each; a refused add changes nothing. |
| CartStore.Store.ChangeQty | src/lib/cartStore.tsx:402-412 | The row takes the least of the request and the three limits, and goes at zero. |
| CartStore.Store.RemoveItem | src/lib/cartStore.tsx:414-416 | The cart without the key, read back. |
| CartStore.Store.ClearCart | src/lib/cartStore.tsx:418 | Nothing is left in memory or storage. |
| CartLaws.SetQtyKeeps | src/lib/cartStore.tsx:402-412 | Setting any quantity keeps keys, country, counts and the money ceiling. |
| CartLaws.RemoveKeeps | src/lib/cartStore.tsx:414-416 | Removing keeps them too, and removes exactly the rows of the key. |
| CartTheorems.AddKeepsShape | src/lib/cartStore.tsx:360-400 | An unforced add keeps keys distinct, one country, quantities in 1..100, the daily allowance and at most 100 rows. |
| CartTheorems.AddFitsIff | src/lib/cartStore.tsx:388-398 | After a successful add the cart fits the ceiling of the touched row exactly when that row, at its own price, is left with what the maximum allows; a free row changes nothing. |
| CartTheorems.MergeGrants | src/lib/cartStore.tsx:364-398 | A merge adds a unit exactly when it is asked for, within the allowance and 100, and affordable beside what is held. |
| CartTheorems.SetQtyGrants | src/lib/cartStore.tsx:402-412 | A quantity is granted exactly when it is asked for, within the allowance and 100, and affordable beside the other rows. |
| CartTheorems.AllowanceKeptIff | src/lib/cartStore.tsx:318-326 | Over every run the cart stays within the orders left today exactly when some are left or the cart is empty. |
| CartTheorems.SpentAllowanceIsNone | src/lib/cartStore.tsx:324 | With all five orders used, two more cards enter the cart. |
| CartTheorems.EveryRunKeepsShape | src/lib/cartStore.tsx:360-418 | Over every run of unforced actions from an empty cart the shape holds, and reading storage again changes nothing. |
| CartTheorems.CarefulRunsKeepMoney | src/lib/cartStore.tsx:360-418 | Over every run whose adds leave the touched row with what fits, the total stays within the face cap and 1e-9 of one unit of a row. |
| CartTheorems.NewRowEscapesTheClamp | src/lib/cartStore.tsx:374-398 | Two units of a 60 dollar item enter an empty cart capped at 100 dollars. |
| CartTheorems.OtherPriceEscapesTheRoom | src/lib/cartStore.tsx:61-63 | A request at 1 dollar adds five units of a 60 dollar package row. |
| CartEffects.AddAcceptedIff | src/lib/cartStore.tsx:363-395 | An unforced add succeeds exactly when the country agrees, orders are left today and one more unit fits. |
| CartEffects.RefusalOrder | src/lib/cartStore.tsx:363-393 | A refusal names its first reason: country, then orders, then money. |
| CartEffects.AddChangesOneRow | src/lib/cartStore.tsx:396-398 | A successful add appends one row or raises the quantity of one; every other row is as it was. |
| CartEffects.PackageSupplies | src/lib/cartStore.tsx:370-377 | A package supplies what the caller leaves out: value, coin amount and currency, and always the fallback price. |
| CartEffects.ValueSupplies | src/lib/cartStore.tsx:70-76 | Without a package the value is the caller's, and the least value is the fallback price. |
| CartEffects.WholeRequest | src/lib/cartStore.tsx:364 | A request is rounded down, from one to a hundred, and is one when it is not a number. |
| CartEffects.RowAsks | src/lib/cartStore.tsx:364-369 | An unforced request is lowered to the orders left today. |
| CartEffects.SetQtyChangesOneRow | src/lib/cartStore.tsx:402-412 | Setting a quantity changes one row or takes it out; every other row is as it was. |
| CartEffects.UnknownKeyIgnored | src/lib/cartStore.tsx:402-416 | Setting or removing a key the cart does not have changes nothing. |
| CartEffects.RowsOfARun | src/lib/cartStore.tsx:360-418 | Over every run of unforced actions: countries in two capitals and all the same, quantities from 1 to 100, no negative amount, at most a hundred rows. |
| CartStorage.ReadBackIs | src/lib/cartStore.tsx:37-54 | From any stored rows: every usable one up to the hundredth is read back, in order, with its country in capitals, its quantity cut to a hundred and no negative amount; no other row is. |
| CartStorage.ReadBackTwice | src/lib/cartStore.tsx:37-54 | Whatever storage holds, reading it gives tidy rows, and reading them again changes nothing. |
| CartStorage.ForcedTakesAll | src/lib/cartStore.tsx:363-398 | A forced add is never refused and adds all that is asked for. |
| CartStorage.UnknownPackage | src/lib/cartStore.tsx:70-76 | A package id the product does not have supplies nothing, not even a fallback price. |
| MoneyNumber.MarkedReadsBack | backend/internal/catalog/fx.go:169-205 | A number written in groups reads back as its digits, for each separator and any number of digits. |
| MoneyNumber.ReadingsAgreeIff | src/lib/format.ts:272-273 | The strict and the lenient number parser agree exactly on decimal numbers and on texts whose leading number has only zeros. |
| MoneyDecimals.DecimalFoundIff | backend/internal/catalog/fx.go:175-208 | The grouping rule finds the whole part and the fraction exactly when two kinds of marks tell them apart, or no three digits follow the only one. |
| MoneyDecimals.FractionReadsBack | src/lib/format.ts:256-273 | Then an amount with a fraction, in either style, reads as itself in the backend and in the storefront. |
| MoneyDecimals.BothStyles | backend/internal/catalog/fx.go:175-208 | 1,234.56 and 1.234,56 are both 1234.56. |
| MoneyLabel.SameParts | backend/internal/catalog/fx.go:257-264 | Putting another number into a label leaves prefix, suffix and currency token as they were. |
| MoneyTokens.BackendReads | backend/internal/catalog/fx.go:96-133 | A whole amount in any grouping, with a symbol, three capitals or TL on either side, reads as that amount of the named currency. |
| MoneyTokens.StorefrontReads | src/lib/format.ts:275-298 | So it does in the storefront, which names no currency for zero. |
| MoneyTokens.BackendReadsAlphabets | backend/internal/catalog/fx.go:97-110 | A label with Arabic, Persian or Devanagari digits reads as with western ones. |
| MoneyTokens.StorefrontReadsAlphabets | src/lib/format.ts:251-253 | So does an amount in the storefront. |
| MoneyGrouping.GroupingFoundIff | backend/internal/catalog/fx.go:265-273 | A number's separator is recognised exactly when it has four to six digits. |
| MoneyGrouping.GroupingKeptIff | backend/internal/catalog/fx.go:262-286 | A clamp writes the label's own grouping exactly when the label had fewer than seven digits or the amount has fewer than four. |
| MoneyGrouping.MillionsLoseGroups | src/lib/format.ts:306-323 | A storefront label from a million up is clamped to plain digits, however it was grouped. |
| MoneyGrouping.ClampsAtRate | backend/internal/catalog/fx.go:244-252 | With a known positive rate, its code in either case, a label is clamped exactly when one unit is within the cap, to the largest whole amount within it. |
| MoneyGrouping.UnknownNotClamped | backend/internal/catalog/fx.go:244-248 | A label of an unknown currency is not clamped. |
| MoneyGo.ParseMoneyAmountRaw | backend/internal/catalog/fx.go:137-214 | The loops read the digits and marks between the first and last digit, drop or rewrite the marks, and read errors as zero. |
| MoneyGo.Collect | backend/internal/catalog/fx.go:141-161 | The first loop keeps exactly the digits and marks, in order. |
| MoneyGo.Ends | backend/internal/catalog/fx.go:162-173 | The second loop finds the first and last digit, or reports none. |
| MoneyGo.AllThrees | backend/internal/catalog/fx.go:184-190 | Grouped exactly when there is a separator and every later part has three characters. |
| MoneyGo.Ungroup | backend/internal/catalog/fx.go:175-208 | The switch drops or rewrites the marks as the grouping rule says. |
| MoneyGo.ParseDenominationLabel | backend/internal/catalog/fx.go:96-128 | A label reads as an amount and a currency, with foreign digits converted; anything else as nothing. |
| MoneyGo.ClampMoneyLabel | backend/internal/catalog/fx.go:244-286 | The label with the whole amount under the cap in its own grouping, or nothing. |
| MoneyGo.MarkThousands | backend/internal/catalog/fx.go:276-283 | The loop writes the separator before every group of three and nowhere else. |
| MoneyGo.PrintedAmount | backend/internal/catalog/fx.go:137-214 | A whole amount written in any grouping reads back as itself. |
| MoneyGo.ClampReadsBack | backend/internal/catalog/fx.go:244-286 | A non-empty clamped label reads back as the label's currency and the largest whole amount worth at most the cap. |
| MoneyTs.ParseMoneyAmount | src/lib/format.ts:248-275 | Never negative, zero for what is not a number, a printed whole amount in any grouping as itself, and the backend's amount exactly where the readers agree. |
| MoneyTs.ClampMoneyLabel | src/lib/format.ts:306-323 | The storefront's clamped label. |
| MoneyTs.ReadersAgreeIff | src/lib/format.ts:248-275 | On every number the backend accepts, both readers agree exactly when grouping leaves a decimal number or a text whose leading number has only zeros. |
| MoneyTs.ReadersPart | src/lib/format.ts:272-273 | On 1.5.2 one reads 0 and the other 1.5. |
| MoneyTs.ClampReads | src/lib/format.ts:306-323 | A clamped label reads as floor(cap) when it was rewritten and as before otherwise, always in the same currency. |
| MoneyTs.ClampedWithinIff | src/lib/format.ts:306-323 | A clamped label is within the cap exactly when the label was, or its number is in ASCII digits. |
| MoneyTs.ForeignDigitsEscape | src/lib/format.ts:306-323 | A hundred in Arabic digits stays as it is under a cap of five. |
| MoneyTs.ClampTwice | src/lib/format.ts:306-323 | Clamping twice is clamping once. |
| StakerTiers.NormalizeStakerTiers | backend/internal/admin/models.go:267-292 | The result is the ascending, duplicate-free ladder of the best clamped rate at each minimum, cut to eight rungs. |
| StakerTiers.BestByMin | backend/internal/admin/models.go:268-280 | The map holds exactly the minimums with a valid rung, each at its best clamped rate. |
| StakerTiers.Rungs | backend/internal/admin/models.go:281-284 | Every entry of the map becomes one rung, in whatever order. |
| StakerTiers.StakerBpsOn | backend/internal/admin/models.go:305-324 | The rate, a rung that grants it and pays most, and no rung exactly when none is reached. |
| StakerTiers.RateMeans | backend/internal/admin/models.go:305-324 | The rate is the best clamped rate over the rungs the stake reaches. |
| StakerTiers.OrderDoesNotMatter | backend/internal/admin/models.go:267-292 | Reordering or repeating rungs gives the same normalised ladder. |
| StakerTiers.Idempotent | backend/internal/admin/models.go:267-292 | Normalising twice is normalising once. |
| StakerTiers.LadderKeepsRates | backend/internal/admin/models.go:267-284 | Collapsing and clamping keep the rate of every stake. |
| StakerTiers.TruncationBelowDropped | backend/internal/admin/models.go:285-290 | With at most eight minimums, or below the first dropped rung, the rate is kept; it is never higher. |
| StakerTiers.TruncationHarmlessIff | backend/internal/admin/models.go:285-290 | Every rate is kept exactly when no dropped rung pays more than the best kept one. |
| StakerTiers.TruncationCanCost | backend/internal/admin/models.go:285-290 | Nine rungs, and a stake that earns less after normalising. |
| StakerTiers.RateMonotone | backend/internal/admin/models.go:305-324 | A larger stake never earns less. |
| TierRates.EarnsIff | backend/internal/admin/models.go:305-324 | A stake earns at least a rate exactly when it is positive, the rate is within 2000, and some rung it reaches offers that much. |
| TierRates.RungPaysIff | backend/internal/admin/models.go:267-284 | A normalised rung pays at least a rate exactly when the rate is within 2000 and some rung with its minimum offers that much. |
| TierRates.MinimumsAre | backend/internal/admin/models.go:267-291 | The ladder's minimums are those that are not negative and offer something; the eight smallest are kept. |
| CatalogFilter.FilterPublicCatalog | src/lib/catalogVisibility.ts:20-37 | Two passes: collect the families with an excluded row, then keep the rest and annotate it. |
| CatalogFilter.BlockedFamilies | src/lib/catalogVisibility.ts:22-27 | The nested loop collects the families that have an excluded row. |
| CatalogFilter.PublicRulesLawful | src/lib/catalogVisibility.ts:10-16 | An e-money category excludes all its rows, and annotating a row changes neither its exclusion nor its family. |
| CatalogFilter.FilterKeepsExactly | src/lib/catalogVisibility.ts:20-37 | The rows left are, in order, exactly those whose family has no excluded variant anywhere. |
| CatalogFilter.SurvivorMember | src/lib/catalogVisibility.ts:28-36 | A row is left exactly when it is an annotated row of a family that is not blocked. |
| CatalogFilter.FilterIdempotent | src/lib/catalogVisibility.ts:20-37 | Filtering twice is filtering once. |
| CatalogMarks.MarkedFamilyHidden | src/lib/catalogVisibility.ts:10-16 | Each of the three marks, and an e-money category of the row, of its place or named beside, keeps the whole family out. |
| CatalogMarks.NamedFamilyHidden | src/lib/catalogVisibility.ts:14 | So does a family name that spells e-money. |
| CatalogMarks.UnmarkedAllShown | src/lib/catalogVisibility.ts:10-37 | Without a mark and such a name anywhere every row is shown. |
| CatalogMarks.GapIgnored | src/lib/catalogVisibility.ts:2 | Blanks, underscores and dashes in a category do not matter, wherever they stand. |
| CatalogMarks.SlugCase | src/lib/catalogVisibility.ts:2 | Nor does case. |
| CatalogMarks.FamilyKeyIff | src/lib/catalogVisibility.ts:8 | Families are told apart by name and country code, whatever the case of the code. |
| CatalogMarks.FirstNameCounts | src/lib/catalogVisibility.ts:5 | The first of family, family name and brand that is there gives the name. |
| CatalogNames.BracketRead | src/lib/catalogVisibility.ts:6 | A bracketed name is read as what stands in the brackets, unless that is nothing. |
| CatalogNames.ShownRowIsListed | src/lib/catalogVisibility.ts:28-35 | A shown row is a listed one that took category and kind of its place where it had none, and nothing else. |
| CatalogNames.LabelReadIff | src/lib/format.ts:378-384 | A link is read as its label exactly when it has a label and an address, each on one line; otherwise it stays. |
| CatalogCards.FlattenBrands | src/lib/catalog.ts:121-201 | Filter, group, de-duplicate and merge: one card per group in order of first occurrence. |
| CatalogCards.Group | src/lib/catalog.ts:140-147 | The loop groups named rows by key, keys in order of first occurrence. |
| CatalogCards.Deduplicate | src/lib/catalog.ts:158-167 | The loop keeps one row per brand id: the first in stock, or the first. |
| CatalogCards.MergeGroup | src/lib/catalog.ts:149-199 | All three branches give the card of the group. |
| CatalogCards.AllBrands | src/lib/catalog.ts:124-128 | The loop lists the rows of all categories in order. |
| CatalogCards.VariantsKeepStock | src/lib/catalog.ts:155-167 | Removing repeated brand ids keeps exactly whether something is in stock. |
| CatalogCards.OneCardPerGroup | src/lib/catalog.ts:140-200 | Exactly one card per family and country of a named row; in stock exactly when a variant is; it shows a variant of its group, an available one if there is one. |
| CatalogCards.OrderDoesNotMatter | src/lib/catalog.ts:140-200 | Reordering or repeating rows changes neither which groups have a card nor which cards are in stock. |
| CatalogOrder.KeysInOrder | src/lib/catalog.ts:140-147 | Groups are listed in the order of their first rows. |
| CatalogOrder.CardsInOrder | src/lib/catalog.ts:148-200 | So are cards. |
| CatalogOrder.OneVariantEach | src/lib/catalog.ts:155-166 | Rows whose brand ids agree but for case are one product, and every row of a group has exactly one variant. |
| CatalogOrder.ListsProductsIff | src/lib/catalog.ts:168-197 | A card lists its products exactly when its group has two different ones, and then each once. |
| CatalogOrder.SoldOutShowsFirst | src/lib/catalog.ts:181 | With nothing in stock a card shows the first row of its group. |
| CatalogOrder.ShowsEarliestInStock | src/lib/catalog.ts:181 | Otherwise it shows a row in stock, and every row before the first one of that product is sold out. |
| CatalogCards.RowShowsItsGroupIff | src/lib/catalog.ts:73-86 | A card made from a row shows the row's group exactly when the row has a country code, no country, or the shop's own. |
| CatalogCards.CardsShowTheirGroupsIff | src/lib/catalog.ts:140-200 | The card of a group shows the group's key exactly when its representative row tells its country. |
| CatalogCards.NoTwoCardsShowTheSame | src/lib/catalog.ts:140-200 | When every representative does, no two cards of the grid show the same family and country. |
| CatalogCards.TwoCardsShowTheSame | src/lib/catalog.ts:78-86 | Two rows, one with its country in either field, give two cards with the same family and country. |
| CatalogGrid.GroupHasCardIff | src/lib/catalogVisibility.ts:18-37 | A group has a card exactly when one of its rows in the input belongs to a family without an excluded row. |
| CatalogGrid.NoCardOverExcluded | src/lib/catalogVisibility.ts:18-37 | So where filter and grid keys agree, no card stands for a group that had an excluded row. |
| CatalogGrid.CardOverExcluded | src/lib/catalogVisibility.ts:5-8 | An excluded row named by a link with spaces in its label does not block the card of the plain name, though both are one group. |
| CatalogGrid.NoCardIsEMoney | src/lib/catalog.ts:121-201 | No card of the grid carries the e-money mark: the filter leaves nothing to mark. |
| Utf8.CutAtBoundary | backend/internal/cashback/calc.go:117-128 | Cutting valid UTF-8 leaves valid text exactly when the cut is at a character boundary. |
| Utf8.AtMostThreeLost | backend/internal/cashback/calc.go:117-128 | The longest valid prefix of at most n bytes of valid text drops at most three bytes below n. |
| PayoutMemo.ClipBytes | backend/internal/cashback/calc.go:117-128 | Short text as it is, valid or not; longer text loses everything after its longest valid prefix of at most n bytes. |
| PayoutMemo.Compose | backend/internal/cashback/calc.go:82-92 | The frame around the clipped name, or the clipped short form, for any bytes. |
| PayoutMemo.Memo | backend/internal/cashback/calc.go:72-93 | At most 64 bytes for any bytes, and valid UTF-8 when the texts are: the frame around the clipped name, a stand-in, or the clipped short form. |
| PayoutMemo.BurnMemo | backend/internal/cashback/calc.go:95-115 | The same for burned cashback. |
| PayoutMemo.MemoKeepsName | backend/internal/cashback/calc.go:82-92 | A name that fits is written whole; a longer one gives up at most three bytes to the cut. |
| MemoTexts.EarnMemoSays | backend/internal/cashback/calc.go:72-93 | The memo's words, and when it names the product, an item, or neither. |
| MemoTexts.EarnMemoCuts | backend/internal/cashback/calc.go:82-92 | A longer name is cut to the most whole characters that fit. |
| MemoTexts.BurnMemoSays | backend/internal/cashback/calc.go:95-115 | The same for burned cashback. |
| Utf8Codes.ValidIff | backend/internal/cashback/calc.go:124 | Text is valid exactly when it is a sequence of encoded Unicode scalar values. |
| Utf8Codes.ProductIs | backend/internal/cashback/calc.go:74-75 | A name is written without the white space around it and on one line; nothing else of it changes. |
| BrandTile.EncodeTile | backend/internal/brandlogo/brandlogo.go:170-211 | The loops write the averaged pixel of every box; an empty image is an error. |
| BrandTile.SumBox | backend/internal/brandlogo/brandlogo.go:190-200 | The inner loops sum each channel weighted by alpha and count the pixels of the box. |
| BrandTile.FillRow | backend/internal/brandlogo/brandlogo.go:186-210 | One row of tile pixels is written and no other. |
| BrandTile.TileFits | backend/internal/brandlogo/brandlogo.go:176-181 | The sides lie in 1..240 and within the source; a small image keeps its size and a large one fills 240. |
| BrandTile.EveryPixelFeeds | backend/internal/brandlogo/brandlogo.go:183-192 | The boxes hold exactly the pixels of the source. |
| BrandTile.NoPixelTwice | backend/internal/brandlogo/brandlogo.go:183-192 | No source pixel lies in two boxes. |
| BrandTile.AverageBetween | backend/internal/brandlogo/brandlogo.go:190-209 | Each colour lies between the least and greatest of the visible pixels of its box. |
| BrandTile.AlphaBetween | backend/internal/brandlogo/brandlogo.go:190-209 | The alpha lies between the least and greatest in its box. |
| BrandTile.ClearIff | backend/internal/brandlogo/brandlogo.go:200-202 | A tile pixel is left clear exactly when its whole box is transparent. |
| BrandTile.SmallImageCopied | backend/internal/brandlogo/brandlogo.go:170-211 | An image no larger than the tile has every visible pixel copied exactly and every transparent one cleared. |
| TileMean.TileIsMean | backend/internal/brandlogo/brandlogo.go:183-209 | A tile pixel is the mean of its part of the image: colours weighted by alpha, alpha plain, all rounded to the nearest level; clear when the part is. |
| TileMean.KeepsProportions | backend/internal/brandlogo/brandlogo.go:176-181 | A tile keeps the proportions of its image to the nearest pixel. |
| PaymentQueue.Tab.PendingSubmissions | src/lib/paymentSubmissionQueue.ts:6-20 | What a tab sees: its memory, with readable storage entries over it. |
| PaymentQueue.Tab.RememberSubmission | src/lib/paymentSubmissionQueue.ts:22-30 | Records the merged entry in memory and storage; an incomplete or conflicting one changes nothing. |
| PaymentQueue.Tab.ForgetSubmission | src/lib/paymentSubmissionQueue.ts:32-39 | Removes the entry only when it is what the tab sees. |
| PaymentRuns.StepKeepsIff | src/lib/paymentSubmissionQueue.ts:22-39 | In one step a stored entry leaves storage exactly by an acknowledgement of its own identifiers, and otherwise keeps them. |
| PaymentRuns.ConflictRefused | src/lib/paymentSubmissionQueue.ts:26 | A conflicting identifier is refused by every tab without a change. |
| PaymentRuns.IdentifiersNeverLost | src/lib/api.ts:836-865 | Over every interleaving of tabs, the identifiers of an accepted record are shown unchanged by every tab or were acknowledged as sent; only records of the same order must be well formed. |
| PaymentRuns.SurvivesReloadIff | src/lib/paymentSubmissionQueue.ts:13-15 | A record survives a reload exactly when reading storage accepts it. |
| PaymentRuns.MalformedIsLost | src/lib/paymentSubmissionQueue.ts:13-15 | A malformed hash recorded in one tab is replaced from another. |
| PaymentRecords.HashIff | src/lib/paymentSubmissionQueue.ts:15 | A hash is sixty-four hexadecimal digits of either case, alone or after 0x. |
| PaymentRecords.GivenBackIff | src/lib/paymentSubmissionQueue.ts:11-16 | Storage gives back a record exactly when it says it belongs there and its identifiers have their forms. |
| PaymentRecords.StorageFirst | src/lib/paymentSubmissionQueue.ts:6-20 | A readable stored record is shown over what a tab remembers. |
| PaymentRecords.FirstRecord | src/lib/paymentSubmissionQueue.ts:23-30 | An incomplete record changes nothing; a complete first one is shown as it came. |
| PaymentRecords.LaterRecord | src/lib/paymentSubmissionQueue.ts:25-30 | A later record that fits adds what was missing and keeps the first time; one that does not changes nothing. |
| PaymentRecords.OwnRecordShown | src/lib/paymentSubmissionQueue.ts:28-30 | The tab that took a record in shows it, readable in storage or not. |
| PaymentRecords.SentAndAcknowledged | src/lib/paymentSubmissionQueue.ts:32-39 | A record that is sent as shown and acknowledged leaves its tab and storage, and nothing else. |
| TunnelSupervisor.Supervisor.OnExit | devtools/tunnel-run.js:105-118 | The exit handler: cleaning, a spent budget, or one pending respawn. |
| TunnelSupervisor.Supervisor.StartChild | devtools/tunnel-run.js:91-95 | A child is spawned and may report a new address. |
| TunnelSupervisor.Supervisor.Report | devtools/tunnel-run.js:74-84 | The first address line since the last spawn is taken, from whichever child it comes, later ones are ignored. |
| TunnelSupervisor.Supervisor.OnError | devtools/tunnel-run.js:100-104 | A spawn error ends supervision. |
| TunnelSupervisor.Supervisor.OnTimer | devtools/tunnel-run.js:116-117 | A pending respawn spawns unless cleaning is set. |
| TunnelSupervisor.Supervisor.OnHeartbeat | devtools/tunnel-run.js:128-130 | A probe starts only with an address and a child without an exit code. |
| TunnelSupervisor.Supervisor.OnSignal | devtools/tunnel-run.js:144-149 | A signal sets cleaning. |
| TunnelSupervisor.Supervisor.OnProbe | devtools/tunnel-run.js:128-141 | The end of a heartbeat: streak, reset, and a kill exactly on the fourth dead probe past the cooldown. |
| TunnelSupervisor.OneChildWithinBudget | devtools/tunnel-run.js:91-118 | In every order of events: at most one child or pending respawn, and at most one spawn plus the budget. |
| TunnelSupervisor.NoSpawnAfterCleaning | devtools/tunnel-run.js:100-118 | Cleaning is permanent and nothing is spawned after it. |
| TunnelRestarts.RespawnIff | devtools/tunnel-run.js:105-117 | A child that exits is replaced exactly while restarts are left and nothing has ended supervision. |
| TunnelRestarts.BudgetIsReached | devtools/tunnel-run.js:105-117 | The budget is used up to the last restart and no further. |
| TunnelRestarts.ProbesOnIff | devtools/tunnel-run.js:129 | After an exit the supervisor probes on exactly when the child was ended by a signal, which leaves no exit code. |
| TunnelRestarts.NothingAfterEnd | devtools/tunnel-run.js:100-104 | A signal, or a child that cannot be started, is the end of spawning. |
| TunnelKills.KillNeedsFourDead | devtools/tunnel-run.js:127-141 | Every kill follows four dead probes with no good verdict and no other kill among them. |
| TunnelKills.KillAfterCooldown | devtools/tunnel-run.js:134-141 | A kill comes more than the cooldown after the last exit that led to a respawn. |
| TunnelKills.KillsApart | devtools/tunnel-run.js:24-31 | Two kills with a scheduled respawn between them are more than the cooldown apart. |
| TunnelKills.KillsAgainIff | devtools/tunnel-run.js:134-141 | After a kill, the fourth dead probe kills again at any later time when no respawn was scheduled since; inside the cooldown only then. |
| TunnelKills.KillsCloserThanCooldown | devtools/tunnel-run.js:134-141 | With heartbeats twenty seconds apart, a child that outlives a kill is killed again eighty seconds later, inside the cooldown. |
| TunnelKills.KillIsOwnIff | devtools/tunnel-run.js:128-141 | The dead probes behind a kill asked the killed child's own address exactly when that was the current one at the first of their heartbeats and nothing was spawned since. |
| TunnelKills.KillTraced | devtools/tunnel-run.js:128-141 | For every kill there are four dead probes and a first heartbeat of which this holds. |
| TunnelKills.OwnedMeansReported | devtools/tunnel-run.js:74-93 | While no line of an earlier child arrives, the current address is the child's own exactly when it has reported. |
| TunnelKills.KillBeforeOwnAddress | devtools/tunnel-run.js:91-141 | For any cooldown: a respawned child that has reported no address is killed for its predecessor's, one heartbeat at a time. |
| Affordability.AffordableIsInverse | src/lib/walletBalance.ts:142-149 | A balance covers n units exactly when n is at most the number of affordable units. |
| Affordability.ShortfallIsLeast | src/lib/walletBalance.ts:128-133 | A whole top-up covers the target exactly when it is at least the shortfall. |
| Affordability.ExactlyOneBand | src/lib/walletBalance.ts:99-115 | Every positive target is covered, tight or below its bare price, and only one of them. |
| Affordability.CoversMeans | src/lib/walletBalance.ts:82-103 | A positive target is covered exactly when a twentieth of it is left over and, while the rate is known, five cents. |

## Left out

- Floating point: rounding, overflow, NaN and the defaults for non-finite inputs; numbers are reals. Large numbers that JavaScript prints with an exponent are out too.
- Upper and lower case beyond ASCII in currencies, families and slugs (in addresses and invoices it is exact); number texts in JSON are taken as already printed.
- SHA-256 is taken to be injective, so a storage key stands for its scope; the server appears only as answers to keys.
- Storage that fails or holds text the code did not write; entries are well formed. The creation time of a checkout entry is not modelled.
- CartTheorems.CarefulRunsKeepMoney: rates, caps and allowance do not change during a run, and writes by another tab to the same cart are not interleaved.
- Rows a cart shows but does not decide by (name, image, brand) and the delivery type.
- Bolt11.BurstRejected: a corruption that plants a new separator is not covered, since it changes which characters are data.
- The amount and network patterns of an invoice (bolt11HasAmount, saneBolt11) and the quote-state predicates beside them: read off one line each.
- Amount formatting in memos: the amount is any text.
- PaymentRuns.IdentifiersNeverLost: attempt limits and the block list of the flush only suppress sends and are not modelled.
- Timers and probes carry no duration in the supervisor: events come in any order at any times. The probe ladder and the address parser are its inputs.
- The order of map iteration where the code sorts afterwards or a map is returned.
- CatalogCards.FlattenBrands: a card is its representative row with country, stock, e-money mark and variants; the price texts and logos of that row are carried along, not parsed or formatted.
- JSON decoding, network, wallet, React and the image codecs.
