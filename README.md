# gnucashMigrate, modelled in Dafny

gnucashMigrate moves a GnuCash ledger onto a new chart of accounts. This
project models the logic at its core and proves properties of it:

- **Exact fixed-point amounts.** `Fixed` is a numerator/denominator pair. Before any arithmetic, the denominators are equalized by scaling the numerator of the operand with the smaller denominator. The module `Common` covers `src/common.rs` and the identical arithmetic of `src/utils.rs`. The module `Utils` covers the `"n/d"` parser with its tagged `FixedError`, `single` and `Option::update`. The older `Value` amount of `src/read.rs`, whose sum starts at 0/100, is in `Read`.
- **Aggregation.** `Sum` and `SumExtender` fold amounts with `+=`. `Book::get_account_total` sums the value and the quantity of every split booked on an account. `DBInfo::get_total_value` sums the values an account has in each transaction's map.
- **Account matching.** `check_parents` compares two accounts name by name up both parent chains. `translate_account` accepts a target account only when it is the one candidate passing that check. `map_account` is the older first-match-by-name lookup.
- **Slot lists and bindings.** `update_readonly` and `update_date_posted` rewrite the slot list of an account or a transaction in place. The `update` methods copy a parsed account, split or transaction into its XML binding. The `TryFrom` conversions read a parsed account or split back.
- **Event readers.** XML input is an abstract list of reader items. Each item is an event (element start with attributes, element end, character data or anything else) or a reader error. The readers cover `AccountType::from_str`, the tag-balancing `Account::from_xml` of `src/mapper/account.rs`, and the older walkers `Account::new`, `get_split` and `Transaction::from_xml` of `src/read.rs`.
- **Writing.** `write_start_state` pairs every old account with its new counterpart and its total. `create_transaction_xml` emits the opening event of a transaction.

The model has one module per source file:

| module | file | source |
|---|---|---|
| `Basics` | basics.dfy | `Option`, `Result`, `Exec` (returns a value or panics with a message), `U16` |
| `Decimal` | decimal.dfy | Rust's integer `FromStr` and `Display` for i32, u16 and u32 |
| `Common` | common.dfy | `src/common.rs`, and the matching arithmetic in `src/utils.rs` |
| `Utils` | utils.dfy | `src/utils.rs` |
| `Xml` | xml.dfy | the reader events of the `xml` crate |
| `Read` | read.dfy | `src/read.rs` |
| `Write` | write.dfy | `src/write.rs` |
| `MapperAccount` | mapper_account.dfy | `src/mapper/account.rs` |
| `MapperWrappers` | mapper_wrappers.dfy | `src/mapper/wrappers.rs` |

Conventions used throughout:

- A Rust panic (`unwrap` on `None`, `todo!()`, `panic!`) is a `Panics(message)` outcome, never a precondition.
- Division by a zero denominator is the exception. It is excluded by a precondition: `CanEqualize`, `Compatible`, `TotalDefined`, `ValuesPositive`. Each one asks only for the denominators the operation actually divides by.
- Mutating code is modelled as methods:
  - loops become `while` or `for` loops with invariants, each proved equal to a function that specifies it;
  - bindings updated field by field become classes with `Record()` views.

`src/mapper/account.rs` is not declared as a module of the crate, so Rust never compiles it. It is modelled as written.

## Model

The `Fixed` arithmetic of `src/utils.rs` repeats `src/common.rs`:

- `equalize_denominator` (62-75), `is_zero` (81-83), `Default` (95-102) and `eq` (104-112);
- `Add` (118-128), `Sum` (138-148) and `Neg` (150-157);
- `SumExtender` (176-199).

Each of these is modelled once, by the `Common` member cited against `src/common.rs` below.

| member | source | states |
|---|---|---|
| Decimal.ParseI32 | src/utils.rs:170 | an i32 parse succeeds only with a value in the i32 range |
| Decimal.ParseU16 | src/utils.rs:170 | the empty text is Empty; a parsed text is digits after an optional '+' |
| Decimal.ParseU32 | src/mapper/account.rs:315 | a u32 parse succeeds only with a value in 0..=u32::MAX |
| Decimal.UnsignedRejectsMinus | src/utils.rs:170 | an unsigned parse rejects a leading '-' as an invalid digit |
| Decimal.I32RoundTrip | src/utils.rs:90-92 | parsing the decimal text of any i32 gives it back |
| Decimal.U16RoundTrip | src/utils.rs:90-92 | parsing the decimal text of any u16 gives it back |
| Common.EqualizeFractions | src/common.rs:14-27 | both results carry the larger denominator; the operand that already had it comes back unchanged |
| Common.EqualizePreservesValue | src/common.rs:18-26 | when the smaller denominator divides the larger, each operand keeps its rational value |
| Common.IncommensurableTruncates | src/common.rs:14-27 | otherwise the quotient truncates: 1/2 + 1/3 gives 2/3 |
| Common.ToStringRaw | src/common.rs:39-41 | the text has exactly one '/', between the numerator's text and the denominator's digits |
| Common.Add | src/common.rs:66-74 | the sum has the larger denominator |
| Common.AddCommutative | src/common.rs:66-74 | add(a, b) and add(b, a) are the same pair |
| Common.AddExact | src/common.rs:66-74 | when one denominator divides the other, the sum's value is the sum of the values |
| Common.Sub | src/common.rs:94-102 | the difference has the larger denominator |
| Common.SubIsAddNeg | src/common.rs:94-102 | a - b is a + (-b) |
| Common.SubSelfIsZero | src/common.rs:94-102 | a - a is zero |
| Common.SubExact | src/common.rs:94-102 | when one denominator divides the other, the difference's value is the difference of the values |
| Common.NegInvolutive | src/common.rs:111-118 | negation keeps the denominator, and negating twice gives the amount back |
| Common.AddNegIsZero | src/common.rs:111-118 | a + (-a) is zero |
| Common.IsZero | src/common.rs:32-34 | for a positive denominator, is_zero holds exactly when the value is 0 |
| Common.Default | src/common.rs:51-56 | a positive denominator and the value 0 |
| Common.AddDefault | src/common.rs:51-74 | the default is the identity of `+` on either side, for every positive denominator |
| Common.Eq | src/common.rs:58-64 | every amount equals itself; with one denominator `==` compares the numerators |
| Common.Neg | src/common.rs:111-118 | negation keeps the denominator and negates the value |
| Common.EqIffSameValue | src/common.rs:58-64 | when one denominator divides the other, `==` holds exactly when the rational values agree |
| Common.FoldAdd | src/common.rs:83-92 | the running total never loses denominator, and is zero-denominator only when it started so |
| Common.Sum | src/common.rs:83-92 | the loop of `Sum` yields the left fold of `+=` from `Default` |
| Common.SumUniform | src/common.rs:51-56 | the sum of nothing is (0,1); amounts sharing a denominator d sum to (sum of numerators, d) |
| Common.FoldDenIsSomeDen | src/common.rs:83-92 | the total's denominator is the largest of the start's and the amounts' denominators |
| Common.FoldExact | src/common.rs:83-92 | when the denominators divide one another in turn, the sum is the exact rational sum |
| Common.SumExtender.constructor | src/common.rs:125-129 | a new extender holds (0,1), the sum of nothing |
| Common.SumExtender.Extend | src/common.rs:130-139 | the total becomes the old total with every element added in order |
| Common.FoldAppend | src/common.rs:130-139 | extending by xs and then by ys equals extending by xs + ys |
| Utils.SplitOnce | src/utils.rs:167 | splits at the first '/': the left part has none, and the parts rebuild the text |
| Utils.ParseWithoutSlash | src/utils.rs:166-169 | a text without '/' fails with MalformedSource carrying the whole text |
| Utils.FromStr | src/utils.rs:160-171 | a parsed amount has an i32 numerator |
| Utils.ParseNumeratorFirst | src/utils.rs:170 | a bad numerator is a ParseNumeratorError whatever the denominator |
| Utils.ParseDenominatorOnly | src/utils.rs:170 | a good numerator with a bad denominator is a ParseDenominatorError |
| Utils.ParseSecondSlashIsDenominatorError | src/utils.rs:166-170 | text after the first '/' belongs to the denominator, so a second '/' is a denominator error |
| Utils.ParseDisplayRoundTrip | src/utils.rs:86-92 | parsing the "n/d" display of any amount with an i32 numerator gives the same pair back |
| Utils.ParseExampleNegative | src/utils.rs:160-171 | "-345/100" parses to -345/100 and prints back the same |
| Utils.ParseExampleBadNumerator | src/utils.rs:160-171 | "ab/100" is a numerator error |
| Utils.ParseExampleBadDenominator | src/utils.rs:160-171 | "100/cd" is a denominator error |
| Utils.EqScaled | src/utils.rs:104-112 | n/d == (n·k)/(d·k) for every k >= 1 |
| Utils.Single | src/utils.rs:205-216 | Some exactly when there is one item, and then that item |
| Utils.SingleCases | src/utils.rs:205-216 | None for no items and for two or more |
| Utils.UpdateLaws | src/utils.rs:21-28 | None stays None; a present value gets the updater once; two updates compose |
| Read.ValueAdd | src/read.rs:198-210 | the sum of two Values has the larger denominator |
| Read.ValueAddIsFixedAdd | src/read.rs:198-210 | Value addition is the amount addition on the same pairs, and is commutative |
| Read.ValueAddSameDen | src/read.rs:205-208 | with equal denominators the numerators add |
| Read.FoldValues | src/read.rs:212-226 | the running total never loses denominator |
| Read.SumValues | src/read.rs:218-226 | the loop of `Sum` yields the left fold of `+=` from the default |
| Read.FoldValuesIsFoldAdd | src/read.rs:218-226 | the Value fold is the amount fold of src/common.rs |
| Read.SumValuesExact | src/read.rs:218-232 | the sum of nothing is 0/100; with dividing denominators the sum is exact |
| Read.SumHundredths | src/read.rs:218-232 | hundredths sum to the sum of the numerators over 100 |
| Read.NewTransaction | src/read.rs:124-130 | the loop builds the map of inserting every split in order |
| Read.Insert | src/read.rs:124-130 | keys are the split accounts; each maps to the last split booked on it; other entries stay |
| Read.ValuesOf | src/read.rs:49-54 | at most one value per transaction, all with nonzero denominators |
| Read.TotalValue | src/read.rs:49-54 | the total is in hundredths or finer; an account with no values totals 0/100 |
| Read.TotalAppend | src/read.rs:49-54 | a transaction that books on the account adds its value; any other leaves the total alone |
| Read.TotalIgnoresQuantities | src/read.rs:49-54 | transactions that agree on values give the same summed values, whatever the quantities |
| Read.TotalOfUnbookedAccount | src/read.rs:49-54 | an account no transaction books on totals 0/100 |
| Read.GetOrInsert | src/read.rs:76-82 | a value already present is kept |
| Read.AccountStep | src/read.rs:64-104 | one turn: first name and id kept, taken only from the text after a name or id element; returns at the closing account tag |
| Read.AccountScan | src/read.rs:64-104 | a returned account was closed by an "account" end tag among the events consumed |
| Read.NewAccount | src/read.rs:64-104 | None, consuming nothing, unless the element is "account"; otherwise the walk |
| Read.AccountScanKeepsFirst | src/read.rs:74-84 | the first name and id taken are the ones returned |
| Read.AccountScanFromText | src/read.rs:64-104 | a returned name or id is the text right after a "name" or "id" element consumed |
| Read.AfterLast | src/read.rs:139 | the text after the last separator, None when there is none |
| Read.NamespaceTail | src/read.rs:139 | None exactly without a namespace; a namespace without '/' panics with the `unwrap` on `None` message; otherwise the '/'-free text after its last '/' |
| Read.ParseAmount | src/read.rs:147-157 | a parsed amount has an i32 numerator; it parses exactly when `Fixed::from_str` does; a text without '/' panics with the `unwrap` on `None` message |
| Read.SplitStep | src/read.rs:132-187 | one turn: the account id is kept first-wins, value and quantity come from the parsed text after their elements, the closing "split" returns the fields |
| Read.SplitScan | src/read.rs:170-181 | a returned split was closed by a "split" end tag among the events consumed |
| Read.SplitScanKeepsUuid | src/read.rs:132-187 | the first account id taken is the one returned |
| Read.SplitScanFromText | src/read.rs:132-187 | each returned field was read from the text after its element |
| Read.SplitScanLastField | src/read.rs:132-187 | a returned value or quantity is the one already held or one read later |
| Read.GetSplit | src/read.rs:132-187 | the loop of `get_split` ends as the scan from no fields does |
| Read.SplitsFrom | src/read.rs:118-120 | repeated `get_split` calls stay within the events |
| Read.TransactionFromXml | src/read.rs:113-122 | None, consuming nothing, unless the element is "transaction"; otherwise the map of the splits read |
| Read.CollectIsInsert | src/read.rs:113-130 | reading a transaction builds the same map as `Transaction::new` on the splits read: the last duplicate wins |
| Write.FindByName | src/write.rs:45-47 | the first position with the name, None when no account has it |
| Write.MapAccount | src/write.rs:45-47 | None exactly when no new account has the name; otherwise a new account with that name |
| Write.MapAccountFirstByName | src/write.rs:45-47 | an account maps exactly when the new ledger has its name, and then to the first account with that name |
| Write.WriteStartState | src/write.rs:9-31 | always Ok; nothing without an "Anfangsbestand"; entry i pairs the mapped i-th old account with its total; stops only at an unmappable account |
| Write.CreateTransactionXml | src/write.rs:33-43 | exactly one event, the `gnc:transaction` start with version 2.0.0 |
| MapperAccount.ParseAccountType | src/mapper/account.rs:116-139 | any rejected text is InvalidAccountType of that text |
| MapperAccount.AccountTypeRoundTrip | src/mapper/account.rs:116-139 | exactly the fourteen names parse, each to the type it names |
| MapperAccount.AccountTypeIsCaseSensitive | src/mapper/account.rs:116-139 | lower-case and padded spellings are rejected |
| MapperAccount.SameAccountById | src/mapper/account.rs:173-177 | equality is an equivalence that looks at the id alone |
| MapperAccount.SkipStart | src/mapper/account.rs:183-188 | consumes one event exactly when it starts the expected element |
| MapperAccount.GetCharacters | src/mapper/account.rs:238-244 | Ok exactly on character data, with its text; the end of the events is a missing "text" |
| MapperAccount.SlotTurns | src/mapper/account.rs:198-228 | the slot loop ends only in reader, event or missing-element errors |
| MapperAccount.ParseSlots | src/mapper/account.rs:190-231 | never returns slots: an error or the `todo!()` panic |
| MapperAccount.TrackedField | src/mapper/account.rs:274-296 | type and parent are tracked only with the type="guid" attribute |
| MapperAccount.Set | src/mapper/account.rs:297-299 | fills one field and changes nothing else |
| MapperAccount.ReaderStep | src/mapper/account.rs:269-313 | a captured text is never replaced; `other` only grows; stopping normally happens at `</gnc:account>` |
| MapperAccount.Scan | src/mapper/account.rs:268-313 | stopping at the closing tag always yields a state |
| MapperAccount.Finish | src/mapper/account.rs:315-328 | Ok exactly when the scu parses and name, id and a valid type are present; the fields come from the texts; a missing name is MissingElement("act:name") |
| MapperAccount.FromXml | src/mapper/account.rs:251-329 | the loop with its locals ends as the reader function says |
| MapperAccount.AccountFromXml | src/mapper/account.rs:253-255 | Ok(None) exactly when the events do not start with `<gnc:account>` |
| MapperAccount.ScanKeepsFirst | src/mapper/account.rs:274-299 | only the first text of each tracked field is captured; `other` keeps the encounter order |
| MapperAccount.ScanNeverMissesOpeningTag | src/mapper/account.rs:302-306 | the stack is never empty at an end tag |
| MapperAccount.AccountFromXmlNeverMissesOpeningTag | src/mapper/account.rs:251-329 | MissingOpeningTag is never returned |
| MapperAccount.StepIgnoresTrailing | src/mapper/account.rs:307-309 | a turn looks at no event past the ones it consumes |
| MapperAccount.ScanIgnoresTrailing | src/mapper/account.rs:307-309 | reading stops at `</gnc:account>`: later events change nothing |
| MapperAccount.AccountFromXmlIgnoresTrailing | src/mapper/account.rs:307-309 | the same for the whole reader |
| MapperAccount.StartTagPushes | src/mapper/account.rs:272-273 | a start tag the loop steps over pushes its name on the open stack |
| MapperAccount.MatchingEndTagPops | src/mapper/account.rs:302-309 | an end tag naming the innermost open element pops it; for `</gnc:account>` the loop stops with what it has read |
| MapperAccount.OtherEventKeepsOpen | src/mapper/account.rs:312 | any other event is kept in `other` and leaves the stack alone |
| MapperAccount.ClosingTagMismatch | src/mapper/account.rs:302-306 | at any point, an end tag that does not name the innermost open element stops the reader with InvalidClosingTag of that name |
| MapperAccount.ClosingTagMismatchExample | src/mapper/account.rs:251-306 | the same through the whole reader: `<gnc:account><x></y>` gives InvalidClosingTag(y) |
| MapperWrappers.Without | src/mapper/wrappers.rs:105 | no slot with the key is left, and none is added |
| MapperWrappers.FindSlot | src/mapper/wrappers.rs:373-374 | None exactly when no slot has the key; otherwise a slot with the key |
| MapperWrappers.UpdateReadonly | src/mapper/wrappers.rs:104-116 | the list is rewritten in place as `WithReadonly` says; the text is untouched |
| MapperWrappers.UpdateDatePosted | src/mapper/wrappers.rs:118-129 | the list is rewritten in place as `WithDatePosted` says; the text is untouched |
| MapperWrappers.CountWithout | src/mapper/wrappers.rs:105 | no slot left by `retain` carries the key |
| MapperWrappers.WithoutIdempotent | src/mapper/wrappers.rs:105 | a second `retain` changes nothing |
| MapperWrappers.WithoutNoKey | src/mapper/wrappers.rs:105 | `retain` keeps slots with other keys untouched |
| MapperWrappers.WithoutDropsLast | src/mapper/wrappers.rs:105-115 | a pushed slot with the key is dropped by the next `retain` |
| MapperWrappers.ReadonlySlotsShape | src/mapper/wrappers.rs:104-116 | one placeholder slot, saying "true", exactly when read-only, and last; other slots keep their order |
| MapperWrappers.DatePostedSlotsShape | src/mapper/wrappers.rs:118-129 | exactly one date-posted slot, last, with the new date; other slots keep their order; a second update replaces the first |
| MapperWrappers.ReadonlyFlag | src/mapper/wrappers.rs:372-377 | errors only with MissingValue("slot:value->value"); no slot list or no placeholder means writable |
| MapperWrappers.FindSlotFirst | src/mapper/wrappers.rs:373-374 | `find` yields the first slot with the key |
| MapperWrappers.ReadonlyFlagFirstPlaceholder | src/mapper/wrappers.rs:372-377 | the first placeholder decides: no text is an error, otherwise read-only exactly when the text is "true" |
| MapperWrappers.FindAppended | src/mapper/wrappers.rs:104-116 | after `retain` and `push`, `find` yields the pushed slot |
| MapperWrappers.ReadonlyRoundTrip | src/mapper/wrappers.rs:104-116 | reading back the flag `update_readonly` wrote gives that flag |
| MapperWrappers.TryIntoAccount | src/mapper/wrappers.rs:360-380 | fails exactly on a missing id, a parent without text or a bad flag, in that order; otherwise name and type are copied |
| MapperWrappers.AccountRoundTrip | src/mapper/wrappers.rs:281-289 | an updated binding reads back as the account, with the flag kept only where there is a slot list |
| MapperWrappers.FromAccountDropsReadonly | src/mapper/wrappers.rs:318-324 | `From<Account>` starts without slots, so a read-only account comes back writable |
| MapperWrappers.GncAccount.FromAccount | src/mapper/wrappers.rs:318-324 | the default binding updated with the account |
| MapperWrappers.GncAccount.Update | src/mapper/wrappers.rs:281-289 | the binding becomes the update of its old contents; the slot list object is kept |
| MapperWrappers.TryIntoSplit | src/mapper/wrappers.rs:396-408 | Ok exactly when id, value, quantity and account all read; id, memo and account copied; errors in order |
| MapperWrappers.DefaultAmountParses | src/mapper/wrappers.rs:255-267 | the default "0/100" parses to 0/100 |
| MapperWrappers.FromSplitLosesQuantity | src/mapper/wrappers.rs:307 | as written, `From<Split>` reads back with quantity 0/100, so any other quantity is lost |
| MapperWrappers.SplitRoundTrip | src/mapper/wrappers.rs:302-310 | corrected, an updated split binding reads back as the split |
| MapperWrappers.TrnSplit.FromSplit | src/mapper/wrappers.rs:335-341 | the default binding updated with the split |
| MapperWrappers.TrnSplit.Update | src/mapper/wrappers.rs:302-310 | as written: every field but the quantity is written from the split |
| MapperWrappers.TrnSplit.UpdateCorrected | src/mapper/wrappers.rs:302-310 | the quantity is written too |
| MapperWrappers.SplitBindings | src/mapper/wrappers.rs:298 | one binding per split |
| MapperWrappers.TransactionUpdatedShape | src/mapper/wrappers.rs:291-300 | one binding per split, each reading back with quantity 0/100; one date-posted slot, last |
| MapperWrappers.GncTransaction.FromTransaction | src/mapper/wrappers.rs:327-333 | the default binding updated with the transaction |
| MapperWrappers.GncTransaction.Update | src/mapper/wrappers.rs:291-300 | the binding becomes the update of its old contents; the slot list object is kept |
| MapperWrappers.FromSplits | src/mapper/wrappers.rs:298 | the bindings built by `From<Split>`, one per split, in order |
| MapperWrappers.SplitsOn | src/mapper/wrappers.rs:446-447 | only splits booked on the account are kept |
| MapperWrappers.SplitsOnKeepsRepeats | src/mapper/wrappers.rs:446-447 | every split booked on the account is kept, repeats included |
| MapperWrappers.MatchingSplits | src/mapper/wrappers.rs:445-447 | only splits booked on the account, across all transactions |
| MapperWrappers.GetAccountTotal | src/mapper/wrappers.rs:444-451 | the two extenders hold the value and quantity folds over the matching splits |
| MapperWrappers.ValuesAppend | src/mapper/wrappers.rs:448-449 | unzipping distributes over concatenation |
| MapperWrappers.AccountTotalAppend | src/mapper/wrappers.rs:444-451 | a new transaction adds its matching splits onto both totals, repeats counting twice |
| MapperWrappers.ClearTransactions | src/mapper/wrappers.rs:453-455 | no transactions are left and the accounts are untouched |
| MapperWrappers.ClearedTotalIsZero | src/mapper/wrappers.rs:453-455 | after clearing, every account totals ((0,1),(0,1)) |
| MapperWrappers.AccountTotalUniform | src/mapper/wrappers.rs:444-451 | values sharing a denominator d total (sum of numerators, d); none total (0,1) |
| MapperWrappers.AccountTotalExact | src/mapper/wrappers.rs:444-451 | with dividing denominators the value total is the exact rational sum |
| MapperWrappers.FindIndex | src/mapper/wrappers.rs:472-473 | the first position with the id, None when no account has it |
| MapperWrappers.RankBelowPosition | src/mapper/wrappers.rs:472-477 | each parent step lowers the rank, so the recursion ends |
| MapperWrappers.CheckParents | src/mapper/wrappers.rs:464-478 | true only for equal names; a panic carries "parent not in book" and happens only for equal names whose parent ids are both set |
| MapperWrappers.CheckParentsBrokenLink | src/mapper/wrappers.rs:472-476 | equal names, both parent ids set, one parent missing from its book: panics with "parent not in book" |
| MapperWrappers.CheckParentsPanicsOnBrokenChain | src/mapper/wrappers.rs:464-478 | a panic means one of the two parent chains is broken |
| MapperWrappers.NamePath | src/mapper/wrappers.rs:464-478 | the path starts at the account's name and has one entry exactly for a root |
| MapperWrappers.CheckParentsComparesPaths | src/mapper/wrappers.rs:464-478 | where both name paths exist, the check is their equality, both ways |
| MapperWrappers.Passing | src/mapper/wrappers.rs:459 | every kept candidate passes the check |
| MapperWrappers.FilterSingle | src/mapper/wrappers.rs:458-460 | a new result is a passing candidate from the list; a panic is the panic of checking some candidate |
| MapperWrappers.FilterSingleIsSingle | src/mapper/wrappers.rs:457-461 | without panics the lazy filter then `single` is `single` of the passing candidates |
| MapperWrappers.SamePath | src/mapper/wrappers.rs:457-461 | every selected candidate has the given name path |
| MapperWrappers.PassingIsSamePath | src/mapper/wrappers.rs:457-478 | corrected, the candidates passing are those with the account's name path |
| MapperWrappers.TranslateAccount | src/mapper/wrappers.rs:457-461 | as written: a result is a target account with the account's name; a panic is "parent not in book" |
| MapperWrappers.TranslateAccountCorrected | src/mapper/wrappers.rs:457-461 | corrected: a result is a target account with the account's name; a panic is "parent not in book" |
| MapperWrappers.TranslateFindsSamePath | src/mapper/wrappers.rs:457-461 | corrected, the result is the one target account with the same name path, None for zero or several |
| MapperWrappers.TranslateAcrossBooksPanics | src/mapper/wrappers.rs:459 | as written, translating a nested account between books with different ids panics; corrected it finds the match |

## Left out

- `read_old_db` (src/read.rs:7-31), `src/main.rs` and `src/mapper/mod.rs`: file I/O and XML deserialisation.
- `DBInfo::new` and `DBInfo::accounts`: a constructor and an accessor.
- The XML tokenizer itself: the readers take the event list as input.
- `src/mapper/xml_bindings.rs`: only its field shapes are used, as the `*Record` datatypes.
- `src/xml_create.rs`: the whole file is commented out.
- The f64 `Display` of `Fixed` (src/common.rs:44-49): floating point.
- UUID parsing and formatting: a uuid is its text.
  - `parse_uuid` only checks that the text is present.
  - `UuidError` and the uuid `expect`s never arise.
- chrono dates: a timestamp is the pair of texts chrono would print for it. Because of this:
  - `update_date_posted` takes the "%Y-%m-%d" text;
  - `TryFrom<&GncTransaction>` (src/mapper/wrappers.rs:382-394) is not modelled, since it parses dates;
  - `TryFrom<&GncBook>` (src/mapper/wrappers.rs:349-358) is not modelled either; it only collects the per-account and per-transaction conversions.
- `GncBook::update` (src/mapper/wrappers.rs:275-279): it does not type-check.
- `Commodity::from_xml`: it ends in `todo!()`.
  - A commodity element in `Account::from_xml` is a panic.
  - The act:commodity-scu text is parsed and then dropped.
  - The commodity field of `GncAccount` is not kept.
- MapperAccount.ParseSlots: the slot map it would build is not modelled, because every path out of its loop is an error or `todo!()`.
- The `Display` impls, the `Error` conversions and the `println!` calls of `write_start_state`: text output only.
- Common.Add: i32 overflow of numerators is not modelled; integers are unbounded. The same holds for Sub, Neg, Read.ValueAdd and the sums.
- Common.Add: a zero denominator (u16 division by zero) is excluded by `CanEqualize` rather than modelled as a panic. The same holds for `Compatible`, `TotalDefined` and `ValuesPositive`. `ValuesPositive` asks only about the values booked on the account being totalled.
- AddAssign/SubAssign: modelled as the function result assigned to the accumulator.
- Utils.Update and Utils.Single are functions on values, not code that mutates in place or advances an iterator.
- MapperWrappers.ClearTransactions is a function that returns the cleared book.
- MapperWrappers.GncTransaction: its split bindings are held as records (`SplitRecord`), not as separate `TrnSplit` objects.
  - Each one is built by a `TrnSplit` object.
  - This is invisible to the source, since nothing else refers to them.
- MapperWrappers.CheckParents: requires `ParentsFirst` on the source book, so that the recursion terminates.
  - `ParentsFirst` means every listed parent comes before its children.
  - This is stronger than acyclic parent chains.
  - A book listing a child before its parent is outside the model.
- Write.WriteStartState: requires `ValuesPositive` for every old account, so no total divides by zero. The source totals only the accounts up to the first one without a match, so it can succeed where this precondition fails.
- Where the written description of the system and the code disagree, the model follows the code.
  - `account.rs` is modelled although it is not compiled.
  - act:type is captured only with a type="guid" attribute.

## Findings

| source | as written | input that shows it | evidently intended | confidence | as-written member | corrected member |
|---|---|---|---|---|---|---|
| src/mapper/wrappers.rs:459 | `translate_account` passes the target-book candidate as the source-book account of `check_parents`, and the source account as the target one. The parent ids are then looked up in the wrong book. | Source book: Root (id s0) and Bank (id s1, parent s0). Target book: Root (id t0) and Bank (id t1, parent t0). Translating Bank s1 panics with "parent not in book". | Pass the source account first and the candidate second. Bank s1 then translates to Bank t1. | high; not executed | MapperWrappers.TranslateAccount | MapperWrappers.TranslateAccountCorrected |
| src/mapper/wrappers.rs:307 | `TrnSplit::update` writes the binding's own quantity text back to itself. A split built by `From<Split>` always carries the default quantity "0/100". | A split with quantity 3/1, turned into a binding and read back, has quantity 0/100. | Write the split's quantity. | high; not executed | MapperWrappers.TrnSplit.Update | MapperWrappers.TrnSplit.UpdateCorrected |

Each finding is backed by lemmas:

- The first finding's discrepancy is shown by `MapperWrappers.TranslateAcrossBooksPanics`. The corrected behaviour is proved by `MapperWrappers.TranslateFindsSamePath`.
- The second finding's discrepancy is shown by `MapperWrappers.FromSplitLosesQuantity`. The corrected behaviour is proved by `MapperWrappers.SplitRoundTrip`.

`GncTransaction.update` builds its split bindings with the source's `From<Split>`. So `MapperWrappers.TransactionUpdatedShape` states the quantity loss as the source has it.
