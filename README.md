# RemindME in Dafny

RemindME is a personal finance tracker that runs entirely in the browser. Its
pages keep subscriptions, income, expenses and categories as lists in React
state, and most of them write those lists to local storage. Accounts are
also kept in local storage:

- signup appends a user to the stored user list;
- login looks the user up and writes a logged-in record;
- the user menu reads that record back and removes it on logout.

The dashboard reads the stored income and expenses and computes:

- the all-time balance;
- this month's totals;
- a budget utilisation percentage;
- a six-month income/expense series.

This project models that behaviour in Dafny and proves properties of the model.

One module per source file:

- `StorageKeys`: per-user storage keys (`getUserSpecificKey`).
- `Dashboard`: balance, month totals, utilisation and the six-month loop, as a method with loop invariants.
- `Subscriptions`, `Income`, `Expenses`, `Categories`: each page's list transforms as pure functions. A class per page holds the state, and its methods replace the list. The subscriptions, income and categories pages save their list on every change; their classes mirror that effect in a `storage` field. For the categories page, `storage` is a map holding every user's key. The expenses page saves nothing, so its class has no `storage` field.
- `Signup`, `Login`: the handlers are module-level methods that take a `Users.AccountStore` and modify it. The store stands for the two account keys of local storage. Each handler is specified by a pure function.
- `UserNav`: profile defaults, logout and `getInitials`.
- `AppLayout`: the sidebar items and their active test.

Shared modules:

- `Wrappers`: `Option`, `Result`.
- `Storage`: what `getItem` plus `JSON.parse` yields: absent, corrupt or a value.
- `Dates`: calendar months.
- `Records`: the page records.
- `Lists`: replace by id, delete by id, first match, and the stable newest-first sort.
- `Users`: account records.

Modelling choices:

- **Amounts** are `real` and dates are calendar fields, so totals are exact and there is no time zone.
- **`Date.now()` ids** and **today's date** are parameters.
- **Storage read failures:** an absent key, an empty string and a value that does not parse are told apart only as far as the code tells them apart.

## Model

| member | source | states |
|---|---|---|
| Wrappers.EmptyAsAbsent | src/app/income/page.tsx:84 | `s || undefined`: the result is absent exactly for the empty string, and otherwise holds the text |
| Storage.OrEmpty | src/app/income/page.tsx:47-59 | the parsed list when one parsed, otherwise the empty list |
| Wrappers.OrElse | src/app/subscriptions/page.tsx:105 | JavaScript's "or" on a string that may be missing (the saved id, the profile fields): the value when present and non-empty, otherwise the fallback |
| Lists.ReplaceById | src/app/income/page.tsx:88 | same length; every record with the id becomes the new record and every other record stays in its place |
| Lists.ReplaceByIdIdempotent | src/app/subscriptions/page.tsx:114 | saving the same edit twice gives the same list as saving it once |
| Lists.FirstIndex | src/app/login/page.tsx:47 | `find`: the first matching index; nothing before it matches; -1 exactly when nothing matches |
| Lists.RemoveById | src/app/income/page.tsx:97 | no record with the id remains and the list does not grow |
| Lists.RemoveByIdCounts | src/app/subscriptions/page.tsx:123 | every record with another id is kept as many times as before; nothing is added |
| Lists.RemoveByIdKeeps | src/app/income/page.tsx:97 | every record with another id survives the delete, and every survivor comes from the list |
| Lists.RemoveByIdAppend | src/app/expenses/page.tsx:103 | deleting distributes over concatenation, so the survivors keep their order |
| Lists.RemoveByIdAbsent | src/app/expenses/page.tsx:103 | deleting an id that no record has leaves the list unchanged |
| Lists.RemoveByIdIdempotent | src/app/categories/page.tsx:157 | deleting twice is deleting once |
| Lists.Insert | src/app/income/page.tsx:90 | one step of the sort: the list grows by exactly one record |
| Lists.InsertCounts | src/app/income/page.tsx:90 | inserting adds one copy of the new record and keeps every other record as often as before |
| Lists.InsertSorted | src/app/income/page.tsx:90 | inserting into a newest-first list keeps it newest first |
| Lists.InsertOnDate | src/app/subscriptions/page.tsx:116 | the inserted record joins its date group after the records already dated like it |
| Lists.SortByDateDesc | src/app/income/page.tsx:90 | the sort result is newest first and is a permutation of the input |
| Lists.SortStable | src/app/subscriptions/page.tsx:116 | stability: for every date, the records of that date keep their input order |
| Lists.AppendThenSort | src/app/income/page.tsx:90 | a record appended and then sorted lands after the records with its date |
| Lists.PrependThenSort | src/app/expenses/page.tsx:96 | a record prepended and then sorted lands before the records with its date |
| Dates.NextMonth | src/app/dashboard/page.tsx:116-120 | the month after a valid month is valid and its month index is one higher |
| Dates.MonthsBefore | src/app/dashboard/page.tsx:118 | `i` months before a month is a valid month whose index is `i` lower, across year boundaries |
| Dates.MonthsBeforeStep | src/app/dashboard/page.tsx:116 | the month after `i+1` months back is `i` months back |
| Dates.MonthsBeforeZero | src/app/dashboard/page.tsx:118 | zero months back of a valid month is that month |
| Dates.MonthIndexInjective | src/app/dashboard/page.tsx:119-120 | valid months with the same index are the same month |
| StorageKeys.GetUserSpecificKey | src/lib/storageKeys.ts:12-26 | with no email or an empty one, the base key plus the invalid-key marker; otherwise the base key, `_`, then the sanitised email |
| StorageKeys.SanitizeIsPerChar | src/lib/storageKeys.ts:21-24 | the three chained global replaces equal a single per-character rewrite: `@` to `_at_`, `.` to `_dot_`, other non-word characters to `_` |
| StorageKeys.Sanitize | src/lib/storageKeys.ts:19-24 | the sanitised email holds only ASCII letters, digits and `_`; SanitizeIsPerChar states what it does to each character |
| StorageKeys.SanitizeLength | src/lib/storageKeys.ts:22-24 | the sanitised length is the email's length plus 3 per `@` and 4 per `.` |
| StorageKeys.SanitizeKeepsKeyText | src/lib/storageKeys.ts:24 | text already made of letters, digits and `_` is left unchanged |
| StorageKeys.SanitizeIdempotent | src/lib/storageKeys.ts:21-24 | sanitising twice is sanitising once |
| StorageKeys.SanitizeNotInjective | src/lib/storageKeys.ts:21-25 | "a.b" and "a_dot_b" sanitise alike, so those two users get the same categories key |
| StorageKeys.NullKeyReachable | src/lib/storageKeys.ts:13-17 | the email "USER_EMAIL_NULL_ERROR_INVALID_KEY" yields the same key as a missing email |
| Dashboard.Total | src/app/dashboard/page.tsx:79-80 | the `reduce` sum of the amounts; what it means is stated by TotalAppend, TotalPermutation and MonthTotalBounds |
| Dashboard.TotalAppend | src/app/dashboard/page.tsx:79-80 | the total of a concatenation is the sum of the totals |
| Dashboard.TotalPermutation | src/app/dashboard/page.tsx:79 | the total does not depend on the order of the records |
| Dashboard.InMonth | src/app/dashboard/page.tsx:88-95 | the filter keeps exactly the records dated in the given month: every kept record is in the month and comes from the list, and every record of the month is kept |
| Dashboard.InMonthCounts | src/app/dashboard/page.tsx:88-95 | each record of the month is kept as many times as it occurs, and nothing else is added |
| Dashboard.InMonthAppend | src/app/dashboard/page.tsx:92-95 | filtering by month distributes over concatenation |
| Dashboard.MonthTotal | src/app/dashboard/page.tsx:88-98 | the sum over the month's records; its bounds are stated by MonthTotalBounds and its growth by MonthTotalAppend |
| Dashboard.MonthTotalBounds | src/app/dashboard/page.tsx:97-98 | with non-negative amounts, a month's total lies between 0 and the all-time total |
| Dashboard.MonthTotalAppend | src/app/dashboard/page.tsx:122-134 | an appended record adds its amount to its own month's total and to no other month |
| Dashboard.ToFixed0 | src/app/dashboard/page.tsx:106 | rounds to an integer within 0.5 of the value, with ties away from zero |
| Dashboard.BudgetUtilization | src/app/dashboard/page.tsx:104-112 | at most 100; with positive income it is 100 once expenses reach income; otherwise, with non-negative expenses, the `toFixed(0)` rounding of the percentage (above it − 0.5, at most it + 0.5, so a half rounds up); with no income it is 100 exactly when there are expenses, else 0 |
| Dashboard.UtilizationMonotone | src/app/dashboard/page.tsx:104-106 | at fixed positive income, spending more never lowers utilisation |
| Dashboard.SetMonth | src/app/dashboard/page.tsx:117-118 | JavaScript `setMonth` gives a valid date in the target month with today's day, or, when that day does not fit, in the month after with a different day; up to the 28th it always stays in the target month |
| Dashboard.ChartMonthAsWritten | src/app/dashboard/page.tsx:117-120 | the month the source's loop charts: a valid month `i` months back, or the month after that when today's day overflows; exactly `i` months back up to the 28th |
| Dashboard.ChartMonth | src/app/dashboard/page.tsx:115-120 | the intended chart month: a valid month exactly `i` months before today's |
| Dashboard.ChartMonthAgrees | src/app/dashboard/page.tsx:117-120 | up to the 28th, the month the loop computes is exactly `i` months back |
| Dashboard.ChartMonthOverflows | src/app/dashboard/page.tsx:117-120 | on 31 March the loop's step one month back lands on March again, not February |
| Dashboard.ChartMonthsConsecutive | src/app/dashboard/page.tsx:115-142 | the six intended chart months end with today's month and each follows the one before |
| Dashboard.FetchDataAndUpdateDashboard | src/app/dashboard/page.tsx:58-145 | balance = all income − all expenses; this month's totals and utilisation; six chart entries, oldest first, one per consecutive month, each with that month's totals, the last being today's; unreadable storage counts as no records |
| Dashboard.BuildChart | src/app/dashboard/page.tsx:115-142 | the loop yields six entries, entry k summarising the month 5 − k months back |
| Subscriptions.SaveSubscription | src/app/subscriptions/page.tsx:101-120 | edit: same length, matching ids replaced, ids kept when the edited id is non-empty; add: one more record, exactly the new one added, the result sorted by due date |
| Subscriptions.FromForm | src/app/subscriptions/page.tsx:104-111 | the saved record carries the given id, and opening it for editing shows exactly the submitted values |
| Subscriptions.UntouchedEditKeepsRecord | src/app/subscriptions/page.tsx:228-262 | saving the edit dialog untouched gives back the record being edited |
| Subscriptions.AddedAfterSameDueDate | src/app/subscriptions/page.tsx:116 | a new subscription comes after existing ones with the same due date |
| Subscriptions.DeleteSubscription | src/app/subscriptions/page.tsx:122-124 | no record with the id remains; every other record is kept exactly as many times as before; nothing new appears; RemoveByIdAppend states that the survivors keep their order |
| Subscriptions.ChangeStatus | src/app/subscriptions/page.tsx:126-130 | same length; records with the id get the new status and keep every other field; other records are unchanged |
| Subscriptions.StatusMenu | src/app/subscriptions/page.tsx:190-204 | the menu offers exactly the two statuses other than the current one |
| Subscriptions.StatusReachable | src/app/subscriptions/page.tsx:190-204 | every other status is offered, and choosing it changes only that record's status |
| Subscriptions.DueDatesOnlyMovedByEdits | src/app/subscriptions/page.tsx:122-130 | delete and status changes never produce a due date that was not already there |
| Subscriptions.SubscriptionsPage.constructor | src/app/subscriptions/page.tsx:70-83 | the stored list when it parses, otherwise the five defaults; storage then holds the list |
| Subscriptions.SubscriptionsPage.HandleSaveSubscription | src/app/subscriptions/page.tsx:101-120 | the list becomes the save result and storage holds it |
| Subscriptions.SubscriptionsPage.HandleDeleteSubscription | src/app/subscriptions/page.tsx:122-124 | the list becomes the delete result and storage holds it |
| Subscriptions.SubscriptionsPage.HandleChangeStatus | src/app/subscriptions/page.tsx:126-130 | the list becomes the status-change result and storage holds it |
| Income.FromForm | src/app/income/page.tsx:79-85 | the source is absent exactly when the field was empty, and otherwise holds the text; opening the saved record for editing shows exactly the submitted values |
| Income.SaveTransaction | src/app/income/page.tsx:76-94 | edit: same length, matching ids replaced, ids kept when the edited id is non-empty; add: one more record, exactly the new one added, the result sorted newest first |
| Income.AddedAfterSameDate | src/app/income/page.tsx:90 | a new transaction comes after existing ones with the same date |
| Income.AddRaisesTotalIncome | src/app/income/page.tsx:90 | adding a transaction raises the dashboard's all-time income by its amount |
| Income.DeleteTransaction | src/app/income/page.tsx:96-98 | no record with the id remains; every other record is kept exactly as many times as before; nothing new appears; RemoveByIdAppend states that the survivors keep their order |
| Income.IncomePage.constructor | src/app/income/page.tsx:47-69 | the stored list when it parses, otherwise empty; storage then holds the list |
| Income.IncomePage.HandleSaveTransaction | src/app/income/page.tsx:76-94 | the list becomes the save result and storage holds it |
| Income.IncomePage.HandleDeleteTransaction | src/app/income/page.tsx:96-98 | the list becomes the delete result and storage holds it |
| Expenses.SaveExpense | src/app/expenses/page.tsx:82-100 | edit: same length, matching ids replaced, ids kept when the edited id is non-empty; add: one more record, exactly the new one added, the result sorted newest first |
| Expenses.FromForm | src/app/expenses/page.tsx:85-91 | the saved record carries the given id and the submitted date, category, description and amount, so opening it for editing shows the submitted values whenever a category was chosen |
| Expenses.UntouchedEditKeepsRecord | src/app/expenses/page.tsx:176-202 | saving the edit dialog untouched gives back the record, except that an empty category becomes the menu's first category |
| Expenses.AddedBeforeSameDate | src/app/expenses/page.tsx:96 | a new expense comes before existing ones with the same date |
| Expenses.DeleteExpense | src/app/expenses/page.tsx:102-104 | no record with the id remains; every other record is kept exactly as many times as before; nothing new appears; RemoveByIdAppend states that the survivors keep their order |
| Expenses.ExpensesPage.constructor | src/app/expenses/page.tsx:46-51 | the page starts from the four built-in expenses |
| Expenses.ExpensesPage.HandleSaveExpense | src/app/expenses/page.tsx:82-100 | the list becomes the save result |
| Expenses.ExpensesPage.HandleDeleteExpense | src/app/expenses/page.tsx:102-104 | the list becomes the delete result |
| Categories.IconForName | src/app/categories/page.tsx:60 | the icon listed beside the name in the table, or `Shapes` for a name the table does not list |
| Categories.NameForIcon | src/app/categories/page.tsx:65 | the name listed beside the icon in the table |
| Categories.ToCategory | src/app/categories/page.tsx:58-61 | id, name and colour are copied; a known icon name gives an icon stored back under that name, any other name gives `Shapes`; CategoryRoundTrip and StoredRoundTrip state the round trips |
| Categories.ToStored | src/app/categories/page.tsx:63-66 | id, name and colour are copied; the icon is stored under a known name that leads back to it |
| Categories.TableIsOneToOne | src/app/categories/page.tsx:49-56 | the icon table lists each name once and each icon once, and its names are the six known names |
| Categories.IconRoundTrip | src/app/categories/page.tsx:58-66 | every icon's stored name is a known name and leads back to the same icon |
| Categories.NameRoundTrip | src/app/categories/page.tsx:58-66 | a known icon name survives icon lookup and back; any other name becomes "Shapes" |
| Categories.CategoryRoundTrip | src/app/categories/page.tsx:58-66 | storing a category and reading it back gives the same category |
| Categories.StoredRoundTrip | src/app/categories/page.tsx:58-66 | reading and re-storing keeps a stored category with a known icon name, and rewrites any other icon name to "Shapes" |
| Categories.ToCategories | src/app/categories/page.tsx:99 | each stored category is converted in place |
| Categories.ToStoredList | src/app/categories/page.tsx:122 | each category is converted in place |
| Categories.ListRoundTrip | src/app/categories/page.tsx:99-122 | storing a list and reading it back gives the same list |
| Categories.DefaultsRoundTrip | src/app/categories/page.tsx:43-47 | the three defaults are stored back unchanged |
| Categories.LoadCategories | src/app/categories/page.tsx:92-116 | no user gives no categories; a parsed list is converted entry by entry; otherwise the three defaults |
| Categories.ReloadGivesSameList | src/app/categories/page.tsx:92-126 | what the save effect stores is what the load effect reads back |
| Categories.FromForm | src/app/categories/page.tsx:137-145 | the saved category carries the given id and the typed name; an empty colour is absent and any other is kept as typed; a known icon name gives an icon stored under that name; any other gives Shapes |
| Categories.SaveCategory | src/app/categories/page.tsx:134-154 | edit: same length, matching ids replaced; add: the old list unchanged with the new category at the end |
| Categories.DeleteCategory | src/app/categories/page.tsx:156-158 | no record with the id remains; every other record is kept exactly as many times as before; nothing new appears; RemoveByIdAppend states that the survivors keep their order |
| Categories.SaveEffect | src/app/categories/page.tsx:119-126 | with a user set, the list is stored under that user's key; every other key is untouched; without a user nothing is written |
| Categories.CategoriesPage.constructor | src/app/categories/page.tsx:75-126 | after the mount effects: the email from the logged-in record, that user's categories loaded, and the list written back under the user's key |
| Categories.CategoriesPage.HandleSaveCategory | src/app/categories/page.tsx:134-154 | the list becomes the save result and only the user's key is written |
| Categories.CategoriesPage.HandleDeleteCategory | src/app/categories/page.tsx:156-158 | the list becomes the delete result and only the user's key is written |
| Users.FindByEmail | src/app/login/page.tsx:47 | the index of the first user with the email, or -1 when no user has it |
| Users.AccountStore.constructor | src/app/signup/page.tsx:45 | the store holds the given user list and logged-in record |
| Signup.SignupUsers | src/app/signup/page.tsx:29-78 | checks in order: a mismatch fails first, then an unparsable list, then a taken email; it succeeds exactly when none applies, with the new user appended at the end |
| Signup.SignupKeepsEmailsDistinct | src/app/signup/page.tsx:57-71 | pairwise distinct stored emails stay distinct after a signup |
| Signup.HandleSignup | src/app/signup/page.tsx:29-78 | the outcome is that of the signup function; on success the stored list is the new one, and otherwise nothing is written |
| Login.DisplayName | src/app/login/page.tsx:50 | a prefix of the email without '@' that is either the whole email or ends right before the first '@' |
| Login.LoginSession | src/app/login/page.tsx:29-64 | an unparsable list fails with an error; otherwise login succeeds exactly when the first user with the email has the password; the record holds the email and its display name |
| Login.LoginIffRegistered | src/app/login/page.tsx:47-49 | with distinct emails, login succeeds exactly for a registered email and password pair |
| Login.SignupThenLogin | src/app/login/page.tsx:47-50 | a user who just signed up can log in with the same password |
| Login.HandleLogin | src/app/login/page.tsx:29-64 | success writes the logged-in record; failure writes nothing; the user list is untouched |
| UserNav.ProfileOf | src/components/layout/user-nav.tsx:38-42 | no field of the profile is empty; a missing name, email or avatar takes its default; the default avatar is seeded with the email as stored |
| UserNav.LoginRecordShown | src/components/layout/user-nav.tsx:38-42 | the record login writes is shown with its own email and name |
| UserNav.LoadProfile | src/components/layout/user-nav.tsx:32-54 | a parsed record gives its profile; an unparsable one is removed; none gives no profile |
| UserNav.HandleLogout | src/components/layout/user-nav.tsx:64-69 | the logged-in record is removed; the user list stays |
| UserNav.Split | src/components/layout/user-nav.tsx:58 | at least one part, and no part contains a space |
| UserNav.JoinSplit | src/components/layout/user-nav.tsx:58 | joining the parts with single spaces gives back the name |
| UserNav.SplitCount | src/components/layout/user-nav.tsx:58 | there is one more part than there are spaces |
| UserNav.Firsts | src/components/layout/user-nav.tsx:59-60 | at most one character per part |
| UserNav.UpperChar | src/components/layout/user-nav.tsx:61 | lower-case ASCII letters map to their upper case; other characters are unchanged |
| UserNav.Upper | src/components/layout/user-nav.tsx:61 | the character-wise upper case, of the same length |
| UserNav.Initials | src/components/layout/user-nav.tsx:56-62 | never empty, and no longer than the number of space-separated parts |
| UserNav.FirstsAreWordStarts | src/components/layout/user-nav.tsx:58-60 | the first characters of the non-empty parts are exactly the characters that start a word |
| UserNav.InitialsAreWordStarts | src/components/layout/user-nav.tsx:56-62 | the initials are the upper-cased word starts of the name, or "U" when it has no words |
| UserNav.BlankNameInitials | src/components/layout/user-nav.tsx:61 | an empty or all-space name has initials "U" |
| AppLayout.IsActive | src/components/layout/app-layout.tsx:58 | an item is active only on paths that start with its href, and always on its href itself; AtMostOneActive shows no path activates two items |
| AppLayout.DashboardExact | src/components/layout/app-layout.tsx:33 | the Dashboard item is active exactly on "/dashboard" |
| AppLayout.OthersByPrefix | src/components/layout/app-layout.tsx:58 | every other item is active exactly on paths that start with its href |
| AppLayout.ActiveOnOwnHref | src/components/layout/app-layout.tsx:58 | every item is active on its own href |
| AppLayout.PrefixIsNotSegment | src/components/layout/app-layout.tsx:34 | "/incomeX" activates Ingresos, while "/dashboard/" does not activate Dashboard |
| AppLayout.DisjointPrefixes | src/components/layout/app-layout.tsx:58 | two hrefs that differ in their second character are never both prefixes of one path |
| AppLayout.AtMostOneActive | src/components/layout/app-layout.tsx:32-38 | no path activates two items |

## Left out

- Browser I/O: `localStorage` itself, `JSON.parse` and `JSON.stringify`, the `localStorageUpdated` and `storage` events, and the dashboard's listeners. A read is an input of type `Stored` (absent, corrupt or a value). A write is an assignment to a field.
- Parsed JSON of the wrong shape: a value that parses but is not a list (or not an object) is out of scope. The same goes for a logged-in record that parses to `null`, or for extra fields that object spreads carry along.
- Floating point: amounts are exact reals. `parseFloat` producing NaN is not modelled. `toFixed(0)` is modelled as rounding half away from zero on exact values.
- Dates: a date is the year, month and day read from the `yyyy-mm-dd` string. UTC parsing against local `getMonth`, invalid dates and the clock are not modelled. Today's date is a parameter.
- `Date.now()` ids are a `freshId` parameter. Nothing assumes that they are unique.
- Dashboard.FetchDataAndUpdateDashboard: a chart entry carries the month and year as numbers, not the Spanish month name that `format(..., 'MMMM', { locale: es })` produces, because that is a library call.
- Dashboard.FetchDataAndUpdateDashboard: it uses the intended month sequence. The code as written is `Dashboard.ChartMonthAsWritten`; see Findings.
- The dashboard reads expenses from the key "remindme_expenses". No page in the model writes that key, since the expenses page keeps its list in memory only. The dashboard's expenses therefore come from whatever another writer left there. The method takes that value as an input.
- Expenses.ExpensesPage: the category list the expense form offers is presentation only and is not modelled.
- Categories.CategoriesPage.constructor: it states the settled state after the mount effects. React also runs the save effect once with the empty list before the load takes effect, and that write is overwritten at once. The intermediate write and router redirects when no user is logged in are not modelled.
- Subscription due-date catch-up and the selection of upcoming dues are not part of this model; none of the modelled files does either.
- UI: rendering, toasts, router navigation, and the browser's `required` and `minLength` form checks. Of the dialogs, only the values an edit dialog shows are modelled (`EditForm` on the subscriptions, income and expenses pages). Their "today" fallback for an empty date is left out, because a modelled record always has a date.
- The categories edit dialog's defaults (the icon's name, and `#cccccc` for a missing colour) are not modelled. Saving that dialog untouched can therefore give a category with a colour it did not have.
- Text: `toUpperCase` is modelled on ASCII letters only. The regular expressions in `getUserSpecificKey` work on UTF-16 code units, which the model treats as characters. Unicode case mapping and surrogate pairs are out of scope.
- Passwords are stored and compared as plain text, as in the code. There is no security property to state.

## Findings

| source | as written | input that shows it | evidently intended | confidence | as-written member | corrected member |
|---|---|---|---|---|---|---|
| src/app/dashboard/page.tsx:117-120 | the chart month is `new Date(today)` with `setMonth(getMonth() - i)`, which keeps today's day and overflows when the target month is shorter | today 2025-03-31, i = 1: 31 February rolls over to 3 March, so the series shows March twice and no February | the six calendar months ending with the current one | not executed | Dashboard.ChartMonthAsWritten (shown by Dashboard.ChartMonthOverflows) | Dashboard.ChartMonth (consecutive months proved by Dashboard.ChartMonthsConsecutive; used by Dashboard.FetchDataAndUpdateDashboard) |
