# Ledger, menu and conversation state, modelled in Dafny

This project models three small state components of a JavaScript
object-oriented exercise repository and proves properties of them:

- **Bank ledger** (`bank.js`). Accounts have a ten-digit account number, a
  balance that only the `balance` setter may change and that never goes
  negative, and an append-only transaction log. Individual and joint
  accounts support `deposit`, `withdraw` and `transferFunds`. A customer
  references accounts and can look up an account's history by number.
- **Menu and order catalogue** (`menu.js`). Dish names and prices are
  validated. A menu keeps its dish names unique and removes the first dish
  with a given name. An order takes each dish from the first menu that has
  it and keeps a running total. A customer needs a non-empty name and an
  address-shaped contact string.
- **Conversation bookkeeping** (`message.js`). A conversation keeps a
  duplicate-free user list and a message history that can be read back
  with a `slice`-based limit. A user creates conversations and mutes them
  by id.

Every operation is a pure function. It returns a `Result`: either the new
state, or the kind of error the JavaScript code throws. Because a failed
call returns no state, a failed call changes nothing, except `addUser`,
whose error is thrown after its push: `AddUser` returns the grown user
list together with the error. Each check the
source makes before changing state is stated as an `ensures` clause of
the form "this error ⟺ this condition", in the source's order.

Files, one module each:

- `results.dfy` (`Results`): `Option` and `Result`.
- `seqs.dfy` (`Seqs`): `findIndex`, a last-index search, `splice(i, 1)`
  and `slice(start)`, with JavaScript's clamping of `start`.
- `text.dfy` (`Text`): `String.prototype.trim` with ECMAScript's whitespace
  set, and the contact pattern
  `^[a-zA-Z0-9._%+-]+@[a-zA-Z0-9.-]+\.[a-zA-Z]{2,}$`.
- `bank.dfy` (`Bank`), `restaurant.dfy` (`Restaurant`) and
  `messaging.dfy` (`Messaging`): one module per source file.

Things the model does differently, and why:

- **Balances.** Money is an integer, added and subtracted exactly. An
  account's balance has type `nat`. `SetBalance` is the only way to turn a
  number into a balance, and it refuses a negative one. Deposit, withdraw
  and transfer change balances only through it. Helper functions prove
  that no call they make can be refused.
- **Object identity.** Accounts that take part in transfers live in a
  `Store`, a map from object identity (`Ref`) to account. A transfer runs
  the source's four statements in order: debit the source, credit the
  target, log on the source, log on the target. Each statement reads the
  state the one before it left. So a self-transfer, which the source does
  not rule out, behaves as it does in JavaScript. The balance comes back
  unchanged, and the account logs a `transfer` record and then a
  `deposit` record.
- **Individual deposits are not logged.** `IndividualAccount.deposit`
  pushes its record onto the copy that the `transactions` getter returns,
  so the record never reaches the account. The model keeps this. The
  predicate `Balanced` says the log explains the balance. Joint deposits,
  withdrawals and transfers keep an account `Balanced`. A successful
  individual deposit always breaks it (`DepositLogAsymmetry`), and the
  deposit does not show up in the customer's history
  (`HistoryAfterDeposit`). Withdrawals, joint deposits and both sides of
  a transfer log through `_addTransaction`; the individual deposit does
  not.
- **Authorization.** The joint transfer checks the owner before anything
  else. Past that check it runs the same statements as the individual
  transfer, so the model defines it that way. Joint deposits and
  withdrawals check no owner. Nothing stops a joint account from
  withdrawing on behalf of a non-owner; the model keeps this.

## Model

| member | source | states |
|---|---|---|
| Text.BlankIffAllWhitespace | bank.js:216 | `trim()` leaves the empty string exactly when every character is ECMAScript whitespace or a line terminator |
| Text.IsEmailMatchesPattern | menu.js:111 | the deterministic address test (first `@`, last `.`) accepts exactly the strings that some split of the regular expression matches |
| Bank.ParseKindInvertsKindName | bank.js:230-238 | the `transactionType` setter accepts a string exactly when it is one of `deposit`, `withdraw`, `transfer`, and yields that kind |
| Bank.DigitRunIffDigits | bank.js:74 | `^\d{10}$`, read as ten steps each consuming one digit and then the end of the input, accepts exactly the strings of ten ASCII digits |
| Bank.CheckAccountNumber | bank.js:73-78 | an account number is accepted exactly when it is ten ASCII digits; anything else is a ValidationError |
| Bank.SetBalance | bank.js:62-67 | a value is accepted as the new balance exactly when it is non-negative; a rejection is a ValidationError; acceptance changes only the balance |
| Bank.NewIndividualAccount | bank.js:93-95 | construction succeeds exactly for a valid number, with balance 0 and an empty log; otherwise ValidationError |
| Bank.NewJointAccount | bank.js:135-138 | construction needs a valid number and, through the owners setter (bank.js:177-182), a non-empty owners list; either failure is a ValidationError |
| Bank.IndividualDeposit | bank.js:97-103 | a non-positive amount is the only failure (ValidationError); success raises the balance by exactly the amount and leaves the log unchanged |
| Bank.JointDeposit | bank.js:139-145 | a non-positive amount is the only failure (ValidationError); success raises the balance by the amount and appends exactly one `deposit` record |
| Bank.AccountDeposit | bank.js:97-145 | deposit dispatched to `IndividualAccount.deposit` (97-103) or `JointAccount.deposit` (139-145): never an owner check; a non-positive amount is the only failure (ValidationError); the balance rises by the amount; a joint account appends one `deposit` record, an individual one keeps its log; the number and the variant, owners included, are kept |
| Bank.Withdraw | bank.js:104-113 | (identical code at bank.js:146-155) amount ≤ 0 is ValidationError, then balance < amount is InsufficientFundsError; success lowers the balance by the amount and appends one `withdraw` record |
| Bank.DepositLogAsymmetry | bank.js:97-103 | a new account's log explains its balance; from an account whose log explains its balance, a joint deposit and a withdrawal keep that so; a successful individual deposit always breaks it |
| Bank.JointDepositThenWithdraw | bank.js:139-155 | a joint deposit followed by a withdrawal of the same amount always succeeds, restores the balance and logs both records |
| Bank.IndividualTransfer | bank.js:114-128 | checks in order: target not an account is InvalidTransactionError, then amount ≤ 0 is ValidationError, then insufficient funds; success moves the amount from source to target, logs `transfer` on the source and `deposit` on the target, and changes no other account; a self-transfer keeps the balance and logs both records |
| Bank.JointTransfer | bank.js:156-173 | an actor outside the owners is an AuthorizationError whatever the target, amount or balance; an owner gets exactly the individual transfer |
| Bank.TransferFunds | bank.js:114-173 | transfer dispatched to `IndividualAccount.transferFunds` (114-128) or `JointAccount.transferFunds` (156-173): AuthorizationError exactly for a joint account and a non-owner; otherwise exactly the individual transfer, with its check order and records; a success preserves the sum of the two balances, and a self-transfer preserves the balance |
| Bank.IndividualTransferIgnoresActor | bank.js:114-123 | the result of an individual transfer does not depend on the actor |
| Bank.TransferKeepsBalanced | bank.js:169-172 | in a store where every log explains its balance, a successful transfer keeps that for every account, self-transfer included |
| Bank.NewCustomer | bank.js:211-221 | a customer can be created exactly when the name has a non-whitespace character; the contact is stored unchecked and the account list starts empty |
| Bank.AddAccount | bank.js:194-199 | only an account may be added (else ValidationError); it is appended by reference |
| Bank.AddedAccountIsFound | bank.js:194-209 | once an account is added, looking up its number returns its log, provided no earlier account of the customer has that number |
| Bank.ViewTransactionHistory | bank.js:205-209 | the log of the first referenced account with the number; ValidationError exactly when no referenced account has it |
| Bank.HistoryAfterDeposit | bank.js:97-103 | after a deposit, the history lookup is unchanged for an individual account and ends with the new `deposit` record for a joint one |
| Restaurant.NewDish | menu.js:157-180 | a dish needs a name with a non-whitespace character and a price ≥ 0 (zero allowed) |
| Restaurant.Lookup | menu.js:130 | `find` by name: nothing exactly when no dish has the name, otherwise the first dish that has it |
| Restaurant.AddDish | menu.js:20-26 | refused (DishNotFoundError) exactly when a dish of that name exists; otherwise appended at the end |
| Restaurant.RemoveDish | menu.js:27-32 | DishNotFoundError exactly when no dish has the name; otherwise only the first such dish is removed, the rest in order |
| Restaurant.EditsKeepNamesUnique | menu.js:20-32 | adding and removing keep the dish names of a menu distinct |
| Restaurant.RemoveUndoesAdd | menu.js:20-32 | removing the dish just added gives back the original menu |
| Restaurant.RemoveDishRemovesName | menu.js:27-32 | on a menu with distinct names, after a removal no dish has that name |
| Restaurant.FindInMenus | menu.js:128-134 | the search loop finds a dish exactly when some menu has the name, and takes it from the first such menu in list order |
| Restaurant.OrderAddDish | menu.js:124-142 | a name in no menu is DishNotFoundError; otherwise the found dish is appended and its price added to the total |
| Restaurant.OrderTotalIsSumOfPrices | menu.js:139-140 | the total is the sum of the prices of the ordered dishes: true of a new order and kept by every `addDish` |
| Restaurant.NewCustomer | menu.js:101-116 | a customer needs a non-empty name (not trimmed) and a contact matching the address pattern |
| Restaurant.PlaceOrder | menu.js:89-94 | only an order is appended to the history; anything else is DishNotFoundError |
| Messaging.AddUser | message.js:144-149 | the user is in the list afterwards; a present user leaves everything unchanged and raises nothing; a new user is appended at the end and then the `user.name` log line throws ReferenceError (message.js:94-96), after the push; the history is untouched |
| Messaging.AddUserIdempotentAndDistinct | message.js:144-149 | adding a user a second time changes nothing and raises nothing, and the user list never holds duplicates |
| Messaging.AddMessage | message.js:156-158 | the message is appended at the end, the earlier history and the users unchanged |
| Messaging.GetHistory | message.js:150-155 | no or zero limit gives all messages; `n > 0` gives the last min(n, length) in order; `-k` drops the first k |
| Messaging.LatestMessageIsLast | message.js:150-158 | after adding a message, a limit of 1 returns just it and a limit covering the history returns everything |
| Messaging.NewUser | message.js:88-112 | a user needs a name with a non-whitespace character and a contact matching the address pattern, and starts online with no conversations |
| Messaging.CreateConversation | message.js:113-125 | a missing or empty user list is an error; otherwise the record has the given id, the creator followed by the users, no messages, notifications on, and is appended to the creator's conversations |
| Messaging.MuteNotifications | message.js:127-136 | an unknown id is an error; otherwise exactly the first conversation with the id is muted and nothing else changes |
| Messaging.MuteIdempotent | message.js:127-136 | muting twice equals muting once |
| Messaging.CreateThenMute | message.js:113-136 | a new conversation whose id no earlier conversation has can be muted by that id, and it is the one muted |

## Left out

- Top-level demo code (bank.js:245-259, menu.js:185-191). It is not part of the components. Note that bank.js:254 throws without a catch, so the script never reaches its transfer.
- Console output: `viewAccounts`, `send`, `delete`, `notify`, and the log line in `muteNotifications`. These only print. The log line in `addUser` also reads `user.name`, which throws; that throw is modelled.
- Clock readings. `Date.now()` values (record timestamps, conversation ids) are parameters.
- Bank.IndividualTransfer: both records take the one clock reading `now`; the source reads the clock once per record.
- `increasePrice`, `decreasePrice`, `applyDemandPricing` (menu.js:45-61). They are floating-point scaling, and the model uses exact integer money. NaN and non-numeric amounts are not modelled.
- `TextMessage` (message.js:32-70). Its `content` accessor calls itself, so no text message can be built. `markRead`/`markUnread` are unreachable for the same reason. The 1500-character rule is not modelled as working. `Message` models the multimedia message only. The `User.name` getter reads an undeclared variable and always throws; only its effect on `addUser` is modelled.
- The `transactions` setter (bank.js:54-58) and the `dishes` setter (menu.js:39-44). Nothing calls them.
- `get transactions`, `viewMenu`, `get dishes`, `getBalance`, `get totalPrice`. In a value model, a read returns an immutable value and cannot change state, so these are plain field reads. The one place where the defensive copy matters, the individual deposit, is modelled explicitly.
- Runtime type guards. Abstract-class checks (`new.target`), `instanceof`, `typeof` and `Array.isArray` become Dafny types or sum types (`Target`, `MenuArgument`, `OrderArgument`, `Option`). The `type` setter of an account only checks that the value is a string; the variant stands for that string.
- Restaurant menu subclasses (`AppetizersMenu`, `EntreesMenu`, `DessertsMenu`) and dish subclasses. Their extra fields have no behaviour.
- `Order.customer`, `getTotal`, `viewSummary`, `viewOrderHistory`. They only read fields, and the customer reference is used only by the summary.
- Aliasing of shared objects. A conversation record returned by `createConversation`, a dish shared between a menu and an order, and a joint account's owners array are separate values in the model. Mutation through the other reference is not modelled.
- Restaurant.PlaceOrder: the history keeps the order as it was when placed. `placeOrder` pushes the live `Order` object (menu.js:93), so a later `addDish` on that order (menu.js:139-140) also shows in the customer's `orderHistory` and in `viewOrderHistory` (menu.js:96). The model does not promise this.
- Messaging.GetHistory: with no limit or a zero limit, the source returns the conversation's own `history` array (message.js:154), which a caller can then change. A non-zero limit returns a fresh array through `slice`. The model returns values, so it does not distinguish these.
- Setters after construction. The `accountNumber` setter, the dish `name`/`price` setters, and the customer and user `name`/`contactInfo` setters can be called again later, with the same check. The model applies each check only at construction (`CheckAccountNumber`, `NewDish`, `NewCustomer`, `NewUser`). No property above depends on the difference. For the owners, this matters: the setter stores the caller's array (bank.js:181) and `get owners` hands out that same array (bank.js:183-185). Anyone holding it can later change who passes the owner check of a joint transfer (bank.js:157), or empty it past the non-empty check (bank.js:178). The model fixes the owners at construction.
- Non-numeric or non-integer `getHistory` limits. A truthy non-number returns the whole history in the source; the model takes an optional integer.
- Strings are sequences of Unicode scalar values, not UTF-16 code units. This matters only for characters outside the Basic Multilingual Plane, which none of the validations treat specially.
- Error messages and error `name` strings. Only error kinds are modelled.
- Concurrency. The code is single-threaded and has no locking.
