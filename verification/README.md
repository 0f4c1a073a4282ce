# home-finances-3 — a Dafny model of the ledger's core

home-finances-3 is a personal-finance ledger. Its backend (NestJS over a
relational store) keeps accounts, transactions with line-item details,
products and services, and a forest of categories, all owned by an agent.
Its frontend (Next.js) shows filterable transaction tables, choice
dropdowns, a category tree and a locale switch.

This project models the core of both sides and proves what they promise:

- **Transactions with details** (`transactions_details.service.ts`):
  - `create`: the sum-of-details check, then the ownership check of both
    accounts, then one all-or-nothing write (modules `DetailsSum`,
    `DetailsCreate`).
  - `findAll`:
    - the `where` builder, built field by field as the code does (`DetailsQuery`);
    - the store's reading of it (`DetailsQuery.Matches`);
    - the in-memory post-filter (`DetailsPostFilter`);
    - the per-request category-path cache, filled by `getCategoryPath`
      (`CategoryPaths`, `DetailsAssembly`);
    - the DTO assembly (`DetailsAssembly`, over the mappers of `PrismaDto`).
- **Category forest** (`CategoriesService.FindAllTree`): the two loops over
  an id-keyed node map.
- **Products** (`ProductsService`): the choice list and the by-category and
  not-in-category queries, the bulk move and the single update.
- **Legacy transactions** (`LegacyTransactions`): the older creation service
  and its where builder.
- **Accounts** listing (`AccountsService`).
- **Frontend helpers** (`TransactionsDetailsTable`, `TransactionsTable`,
  `FilterIds`, `UniversalSelectDropdown`, `MultiSelectDropdown`,
  `CategoryTree`, `LocaleSwitcher`, `Middleware`).

`JsText` models the JavaScript built-ins the code relies on: `parseInt`
(section 19.2.5 of ECMA-262), `trim`, `toLowerCase`, `includes`,
`toString` and `join`. `Store` holds the records and the store: each table
is a sequence in the order the store returns it, `findFirst` is `First`,
and `findMany`/`filter` is `Filter`.

The state-changing parts follow the code's shape:

- `Store.Db` and `LegacyTransactions.LegacyDb` are classes whose table
  fields `create` and the product updates reassign.
- The `where` builders assign one field after another.
- `findAllTree` and the category cache use loops over maps, with invariants.
- The component state of the amount inputs and of the dropdowns is a class
  per component, with one method per handler.

Each method is proved against a specification function. The properties are
then lemmas about those functions.

## Model

| member | source | states |
|---|---|---|
| AccountsService.Summarize | apps/backend/src/accounts/accounts.service.ts:18-21 | id and name are copied; the description is absent exactly when it was null, and is copied verbatim otherwise |
| AccountsService.FindAll | apps/backend/src/accounts/accounts.service.ts:9-22 | one summary per fetched account, in the same order, each with id and name copied and null descriptions made absent |
| PrismaDto.ToCategoryDto | apps/backend/src/dto/prisma-dto.ts:28-30 | the category is copied whole and the transient path and id are absent |
| PrismaDto.ToProductOrServiceDto | apps/backend/src/dto/prisma-dto.ts:32-34 | the product and both units are kept; the category is exactly the second argument |
| PrismaDto.ToTransactionDetailDto | apps/backend/src/dto/prisma-dto.ts:36-38 | the detail is kept; product and path are the arguments |
| PrismaDto.ToTransactionDto | apps/backend/src/dto/prisma-dto.ts:40-45 | the transaction and both accounts are kept; `details` is the argument, not what the spread brought along |
| PrismaDto.OneArgumentCallDropsCategory | apps/backend/src/dto/prisma-dto.ts:32-34 | a one-argument call yields no category, even when the input carried one |
| DetailsSum.TotalAppend | apps/backend/src/transactions_details/transactions_details.service.ts:19 | the left fold of quantity × price splits over any split of the details |
| DetailsSum.MismatchIgnoresOrder | apps/backend/src/transactions_details/transactions_details.service.ts:19-22 | moving a block of details to the front changes neither the total nor the verdict of the 0.01 check |
| DetailsSum.ReconciliationExamples | apps/backend/src/transactions_details/transactions_details.service.ts:19-22 | with amount 100, details 2 × 40 and 1 × 19 are refused and 2 × 40 and 1 × 20 are accepted |
| DetailsCreate.NewTransaction | apps/backend/src/transactions_details/transactions_details.service.ts:34-44 | the new row carries the request's fields, the agent and the given id; a missing description is stored as null; no transfer link is set |
| DetailsCreate.StampDetails | apps/backend/src/transactions_details/transactions_details.service.ts:46-52 | one row per input, in order, keeping product, quantity and price, stamped with the transaction id, the agent and consecutive ids |
| DetailsCreate.Create | apps/backend/src/transactions_details/transactions_details.service.ts:15-56 | BadRequest exactly when the sum check fails, whatever the accounts; NotFound exactly when the sum passes and an account is not the agent's; success exactly when both checks pass. A refusal writes nothing. A success appends one transaction and its stamped details and returns the bare transaction |
| CategoryPaths.ParentOf | apps/backend/src/transactions_details/transactions_details.service.ts:62 | the parent found has the named id and the category's own agent; None exactly when no stored row has both |
| CategoryPaths.Extend | apps/backend/src/transactions_details/transactions_details.service.ts:64 | the name alone after an empty parent path; otherwise the parent path, then '/' and the name |
| CategoryPaths.CategoryPath | apps/backend/src/transactions_details/transactions_details.service.ts:59-65 | '' for no category; the name for a root, or when the parent is missing or another agent's; otherwise the parent's path, '/' and the name, or the name alone when the parent's path is empty; in every case the name itself or a path ending in '/' + name |
| CategoryPaths.CategoryPathFuelIrrelevant | apps/backend/src/transactions_details/transactions_details.service.ts:59-65 | the path does not depend on the lookup bound, once the chain fits within it |
| CategoryPaths.ChainNames | apps/backend/src/transactions_details/transactions_details.service.ts:59-65 | the names along the chain end with the category's own name |
| CategoryPaths.CategoryPathIsJoinedChain | apps/backend/src/transactions_details/transactions_details.service.ts:59-65 | with no empty names, the path is the chain's names from the root down, joined by '/' |
| CategoryPaths.OverriddenAgentChainEnds | apps/backend/src/transactions_details/transactions_details.service.ts:291 | without cycles in the store, `{ ...category, agentId }` has a chain of at most one more step than there are categories |
| DetailsQuery.NumericIds | apps/backend/src/transactions_details/transactions_details.service.ts:156-158 | an id is kept exactly when some parameter converts to it; NaN ones are dropped; no more ids than parameters |
| DetailsQuery.CategoryClause | apps/backend/src/transactions_details/transactions_details.service.ts:151-171 | present exactly when the parameter is truthy and some id is numeric; it then holds exactly the numeric ids |
| DetailsQuery.NameClause | apps/backend/src/transactions_details/transactions_details.service.ts:174-188 | present exactly when the parameter is truthy and its array not empty; it then holds every name, trimmed (or `String(n)`), in order |
| DetailsQuery.DetailsClause | apps/backend/src/transactions_details/transactions_details.service.ts:147-194 | one `details.some` clause, present exactly when either part is, holding both parts |
| DetailsQuery.BuildWhere | apps/backend/src/transactions_details/transactions_details.service.ts:70-194 | the field-by-field construction yields the `where` object of the query |
| DetailsQuery.BuildDateRange | apps/backend/src/transactions_details/transactions_details.service.ts:89-128 | each bound is set from a truthy parameter only when it parses, or from a `Date` as is |
| DetailsQuery.BuildNestedFilters | apps/backend/src/transactions_details/transactions_details.service.ts:147-189 | the category clause, then the names added into the same `productOrService`, give the details clause |
| DetailsQuery.Select | apps/backend/src/transactions_details/transactions_details.service.ts:196-224 | refused exactly when the store does not accept the `where` object; otherwise exactly the rows it matches, in store order |
| DetailsQuery.EmptyQueryMatchesAgent | apps/backend/src/transactions_details/transactions_details.service.ts:70-72 | without parameters, exactly the agent's transactions match |
| DetailsQuery.AccountIdStringSelectsAccount | apps/backend/src/transactions_details/transactions_details.service.ts:74-76 | a non-zero account id given as its decimal string gives a query the store accepts, which selects exactly the agent's transactions on that account |
| DetailsQuery.ZeroAccountIdIgnored | apps/backend/src/transactions_details/transactions_details.service.ts:74 | an account id of 0 or "" adds no condition |
| DetailsQuery.NaNAmountBoundRefused | apps/backend/src/transactions_details/transactions_details.service.ts:131-145 | a non-numeric amount bound is not dropped: it reaches the `where` object as NaN, and the store refuses the query |
| DetailsQuery.NonNumericAccountIdRefused | apps/backend/src/transactions_details/transactions_details.service.ts:74-76 | a truthy account id that does not parse reaches the `where` object as NaN, and the store refuses the query |
| DetailsQuery.ParsedNumbersAccepted | apps/backend/src/transactions_details/transactions_details.service.ts:74-145 | when every numeric parameter given parses, the store accepts the query |
| DetailsQuery.UnparsableDatesGiveEmptyRange | apps/backend/src/transactions_details/transactions_details.service.ts:89-101 | a given start date that does not parse still yields `date: {}`, which constrains nothing |
| DetailsQuery.ScalarCategoryIdLikeArray | apps/backend/src/transactions_details/transactions_details.service.ts:151-153 | a truthy scalar gives the same clause as the one-element array |
| DetailsQuery.ScalarZeroCategoryIdIgnored | apps/backend/src/transactions_details/transactions_details.service.ts:151-158 | a scalar 0 is falsy and adds nothing, while `[0]` filters on category 0 |
| DetailsQuery.DecimalIdsSurvive | apps/backend/src/transactions_details/transactions_details.service.ts:156-158 | ids given as decimal strings come out as exactly those ids, in order |
| DetailsQuery.SameDetailMustMatchBoth | apps/backend/src/transactions_details/transactions_details.service.ts:161-187 | the category and the name conditions must hold of one detail; two details meeting one each do not match |
| DetailsPostFilter.NameConstraint | apps/backend/src/transactions_details/transactions_details.service.ts:255-258 | the name constraint is active exactly when the store's name clause is |
| DetailsPostFilter.PruneDetails | apps/backend/src/transactions_details/transactions_details.service.ts:229-270 | the transaction and its accounts are kept; without detail-level parameters nothing changes; otherwise the details are the `Store.Filter` of those passing every active constraint, so exactly those stay |
| DetailsPostFilter.PruneDetailsKeepsOrder | apps/backend/src/transactions_details/transactions_details.service.ts:229-270 | the details kept from `a + b` are those kept from `a`, then those kept from `b`; details without repeats stay without repeats |
| DetailsPostFilter.PruneAll | apps/backend/src/transactions_details/transactions_details.service.ts:227-273 | one pruned transaction per input, in order |
| DetailsPostFilter.PostFilterSound | apps/backend/src/transactions_details/transactions_details.service.ts:227-278 | every result is a pruned input; with a detail-level parameter it has details, and each passes every constraint |
| DetailsPostFilter.PostFilterComplete | apps/backend/src/transactions_details/transactions_details.service.ts:232-278 | an input is returned (pruned) exactly when it has a passing detail, or no detail-level parameter is given |
| DetailsPostFilter.PostFilterAppend | apps/backend/src/transactions_details/transactions_details.service.ts:227-278 | the post-filter distributes over concatenation, so the store's order is kept |
| DetailsPostFilter.NoDetailFiltersNoChange | apps/backend/src/transactions_details/transactions_details.service.ts:276-278 | without detail-level parameters the transactions come back unchanged |
| DetailsPostFilter.EmptyCategoryArrayDropsEmptyTransactions | apps/backend/src/transactions_details/transactions_details.service.ts:239-278 | `categoryIds: []` keeps every detail but drops the transactions without any |
| DetailsPostFilter.UntrimmedNameFailsPostFilter | apps/backend/src/transactions_details/transactions_details.service.ts:185-263 | the name " tea" makes the store select a product named "tea", whose detail then fails the untrimmed post-filter |
| DetailsAssembly.CategoriesOf | apps/backend/src/transactions_details/transactions_details.service.ts:283-284 | exactly the non-null categories of the details' products |
| DetailsAssembly.DetailCategories | apps/backend/src/transactions_details/transactions_details.service.ts:281-284 | exactly the non-null categories of the products of all details of all transactions |
| DetailsAssembly.PathedEntry | apps/backend/src/transactions_details/transactions_details.service.ts:291-292 | the entry keeps its category, gets the path computed with the caller's agent, and `categoryId` is the id |
| DetailsAssembly.CategoryCache | apps/backend/src/transactions_details/transactions_details.service.ts:281-293 | one entry per distinct category id met |
| DetailsAssembly.BuildCategoryCache | apps/backend/src/transactions_details/transactions_details.service.ts:281-293 | the reduce and the path loop build the cache: per id, the first category met, with its path |
| DetailsAssembly.CollectFirsts | apps/backend/src/transactions_details/transactions_details.service.ts:285-288 | the keys are the ids met; each entry is the first category with its id; the order lists each key once |
| DetailsAssembly.FillPaths | apps/backend/src/transactions_details/transactions_details.service.ts:290-293 | the same keys, each entry now carrying its path and id |
| DetailsAssembly.AssembleDtos | apps/backend/src/transactions_details/transactions_details.service.ts:296-326 | one DTO per transaction, in order, with the DTO of each detail |
| DetailsAssembly.FindAll | apps/backend/src/transactions_details/transactions_details.service.ts:67-329 | the request fails exactly when the store refuses the `where` object; otherwise one DTO per selected and post-filtered transaction, in store order, assembled over the cache of those transactions |
| DetailsAssembly.CacheHoldsFirstOccurrence | apps/backend/src/transactions_details/transactions_details.service.ts:285-292 | each cache entry is the first category met with its id, pathed |
| DetailsAssembly.DetailPathComesFromCache | apps/backend/src/transactions_details/transactions_details.service.ts:300-312 | a detail with a truthy `categoryId` naming its included category gets the cached path of the first category with that id |
| DetailsAssembly.UncategorizedDetailHasNoPath | apps/backend/src/transactions_details/transactions_details.service.ts:301-311 | a product with a null or 0 `categoryId` gives a detail without path |
| DetailsAssembly.ProductDtoCategoryIsDropped | apps/backend/src/transactions_details/transactions_details.service.ts:305-310 | the product DTO never carries the pathed category; product and detail are kept |
| CategoriesService.ParentId | apps/backend/src/categories/categories.service.ts:28 | a parent exactly when `superCategoryId` is neither null nor 0 |
| CategoriesService.FindAllTree | apps/backend/src/categories/categories.service.ts:9-35 | `tree` is the root ids in input order; every row has a node whose children are the rows naming it, in input order; null parents come out absent |
| CategoriesService.InitialNodes | apps/backend/src/categories/categories.service.ts:20-25 | a childless node for every row, under its id |
| CategoriesService.PushChildStep | apps/backend/src/categories/categories.service.ts:28-29 | pushing a row into its parent's children keeps the loop invariant |
| CategoriesService.OrphanStep | apps/backend/src/categories/categories.service.ts:29 | a row whose parent has no node changes nothing |
| CategoriesService.RootStep | apps/backend/src/categories/categories.service.ts:30-31 | a root row changes no node |
| CategoriesService.ChildIdsSnoc | apps/backend/src/categories/categories.service.ts:27-29 | one more row extends only its parent's children |
| CategoriesService.RootIdsIff | apps/backend/src/categories/categories.service.ts:28-31 | an id is a root exactly when a row with that id has no parent |
| CategoriesService.ChildIdsIff | apps/backend/src/categories/categories.service.ts:28-29 | an id is among p's children exactly when a row with that id names p |
| CategoriesService.RootIdsAscending | apps/backend/src/categories/categories.service.ts:17-31 | roots come out in ascending id order |
| CategoriesService.OrphanIsDropped | apps/backend/src/categories/categories.service.ts:29 | a row whose parent is not in the input is neither a root nor anybody's child |
| CategoriesService.ChildOfItsParentOnly | apps/backend/src/categories/categories.service.ts:27-30 | a row with a parent is a child of exactly that parent and not a root |
| CategoriesService.RootIsNobodysChild | apps/backend/src/categories/categories.service.ts:27-32 | a root is in the tree and nobody's child, so each row is placed at most once |
| ProductsService.AgentProducts | apps/backend/src/products/products.service.ts:10-13 | exactly the agent's products, in store order |
| ProductsService.FindSelectItems | apps/backend/src/products/products.service.ts:8-26 | one choice per product of the agent |
| ProductsService.SelectItemsFollowAgentProducts | apps/backend/src/products/products.service.ts:22-25 | the i-th choice is `{ id, label: name }` of the agent's i-th product |
| ProductsService.CategoryFilter | apps/backend/src/products/products.service.ts:33 | `categoryId \|\| null`: null exactly for absent, 0 or NaN |
| ProductsService.FindProductsByCategory | apps/backend/src/products/products.service.ts:28-42 | exactly the summaries of the agent's products with that `categoryId` |
| ProductsService.FindProductsNotInCategory | apps/backend/src/products/products.service.ts:44-60 | exactly the summaries of the agent's products with another `categoryId` |
| ProductsService.ByCategoryOfNothingIsUncategorized | apps/backend/src/products/products.service.ts:28-42 | with 0 or no `categoryId`, a product of the agent is selected exactly when uncategorized |
| ProductsService.ByAndNotInCategoryPartition | apps/backend/src/products/products.service.ts:28-60 | the two queries are disjoint, cover the agent's products, and their sizes add up to their number |
| ProductsService.SourceProductIds | apps/backend/src/products/products.service.ts:64-74 | exactly the ids of the agent's products in the source category |
| ProductsService.UpdateCategoryOf | apps/backend/src/products/products.service.ts:78-87 | same number of rows and the same ids, position by position; a row whose id is listed gets the new category and nothing else changes in it; every other row is unchanged |
| ProductsService.MoveProductsToCategory | apps/backend/src/products/products.service.ts:62-91 | the source products get the target category; `moved` is their number; with none, no update |
| ProductsService.MoveChangesExactlySourceProducts | apps/backend/src/products/products.service.ts:62-88 | with unique ids, a row changes exactly when it is the agent's and in the source category, and then only its category |
| ProductsService.MovedCountIsCategorySize | apps/backend/src/products/products.service.ts:90 | the count reported is the number of the agent's products in the source category |
| ProductsService.SetCategory | apps/backend/src/products/products.service.ts:121-133 | same rows with the same ids and names |
| ProductsService.UpdateProductCategory | apps/backend/src/products/products.service.ts:93-136 | fails with nothing changed when the product is not the agent's, or a non-null category is not the agent's; succeeds exactly otherwise, setting that product's category and returning `{ id, name, categoryId }` |
| ProductsService.SetCategoryChangesOnlyThatProduct | apps/backend/src/products/products.service.ts:121-127 | only rows with that id change, and only their `categoryId` |
| LegacyTransactions.FindUserAccount | apps/backend/src/transactions/transactions.service.ts:24-25 | a found account is the user's and has the id (when one is given); None exactly when no account fits |
| LegacyTransactions.NewLegacyTransaction | apps/backend/src/transactions/transactions.service.ts:33-43 | the request's fields, the user and the given id; a missing description is null |
| LegacyTransactions.StampLegacyDetails | apps/backend/src/transactions/transactions.service.ts:45-50 | one row per input, keeping its fields, stamped with the transaction id only |
| LegacyTransactions.Create | apps/backend/src/transactions/transactions.service.ts:14-54 | BadRequest exactly on a sum mismatch; NotFound exactly when the sum passes and an account is not the user's; a refusal writes nothing; a success appends one transaction and its details |
| LegacyTransactions.BuildLegacyWhere | apps/backend/src/transactions/transactions.service.ts:56-89 | the field-by-field construction yields the legacy `where` object |
| LegacyTransactions.FindAll | apps/backend/src/transactions/transactions.service.ts:56-110 | refused exactly when the store does not accept the unconverted values; otherwise exactly the matching rows, in store order, with no post-filter |
| LegacyTransactions.StringIdsRefused | apps/backend/src/transactions/transactions.service.ts:63-81 | a truthy `userAccountId` or `categoryId` given as a string, as a query string delivers it, makes the store refuse the query |
| LegacyTransactions.FindAllReturnsWholeRows | apps/backend/src/transactions/transactions.service.ts:91-109 | each result is an input row of the user, with all its details |
| LegacyTransactions.ProductNameMatchesIgnoringCase | apps/backend/src/transactions/transactions.service.ts:83-87 | a product name equal to the parameter up to case, with any text around it, matches |
| LegacyTransactions.SameDetailMustMatchBoth | apps/backend/src/transactions/transactions.service.ts:74-89 | category and name conditions must hold of one detail |
| LegacyTransactions.DatesPassUnparsed | apps/backend/src/transactions/transactions.service.ts:67-71 | a string date bound reaches the store as the string given |
| JsText.Trim | apps/backend/src/transactions_details/transactions_details.service.ts:186 | the slice of the input after its leading white space with no white space at either end, everything dropped before and after it being white space |
| JsText.TrimOfTrimmed | apps/backend/src/transactions_details/transactions_details.service.ts:186 | a name with no white space at its ends is kept as it is |
| JsText.ParseIntNaNIff | apps/backend/src/transactions_details/transactions_details.service.ts:156-158 | NaN exactly when no decimal digit follows the white space and sign |
| JsText.ParseIntSkipsWhiteSpace | apps/backend/src/transactions_details/transactions_details.service.ts:75 | leading white space does not change the result |
| JsText.ParseIntOfIntToString | apps/frontend/src/components/TransactionsDetailsTable.tsx:239-241 | `parseInt(k.toString())`, with radix 10 or none, is k |
| JsText.TrimStart | apps/backend/src/transactions_details/transactions_details.service.ts:186 | a suffix of the input whose dropped prefix is all white space and which does not start with white space |
| JsText.TrimEnd | apps/backend/src/transactions_details/transactions_details.service.ts:186 | a prefix of the input whose dropped suffix is all white space and which does not end with white space |
| JsText.ToLower | apps/frontend/src/components/UniversalSelectDropdown.tsx:84 | the same length, each character lower-cased in place |
| JsText.NatToString | apps/frontend/src/components/TransactionsDetailsTable.tsx:182 | a non-empty string of decimal digits, without a leading zero for a positive number |
| JsText.IntToString | apps/frontend/src/components/TransactionsDetailsTable.tsx:182 | a '-' and the digits of the magnitude for a negative number; the digits alone otherwise |
| JsText.Join | apps/frontend/src/components/UniversalSelectDropdown.tsx:92 | '' for no parts; the part itself for one part |
| Store.First | apps/backend/src/transactions_details/transactions_details.service.ts:25-26 | a found row is in the table and satisfies the condition; None exactly when no row does |
| Store.Filter | apps/backend/src/transactions_details/transactions_details.service.ts:276-278 | exactly the rows satisfying the condition, never more rows than given |
| Store.FilterAppend | apps/backend/src/transactions_details/transactions_details.service.ts:276-278 | filtering distributes over concatenation, so rows keep their relative order |
| Store.FilterKeepsAll | apps/backend/src/transactions_details/transactions_details.service.ts:276-278 | a condition every row satisfies keeps the rows unchanged |
| Store.FilterDistinct | apps/backend/src/transactions_details/transactions_details.service.ts:239-270 | filtering rows without repeats gives rows without repeats |
| Wrappers.OrUndefined | apps/backend/src/accounts/accounts.service.ts:20 | `?? undefined`: present exactly when not null, then the same value |
| Store.Db.constructor | apps/backend/src/transactions_details/transactions_details.service.ts:13 | the store holds the given categories, products and accounts, and no transaction or detail yet |
| LegacyTransactions.LegacyDb.constructor | apps/backend/src/transactions/transactions.service.ts:12 | the store holds the given accounts, and no transaction or detail yet |
| TransactionsDetailsTable.HandleCategoryChange | apps/frontend/src/components/TransactionsDetailsTable.tsx:179-188 | only `category` changes, and the dropdown then shows exactly the chosen ids, in order |
| TransactionsDetailsTable.HandleAccountChange | apps/frontend/src/components/TransactionsDetailsTable.tsx:208-217 | only `account` changes, and it reads back as exactly the chosen ids |
| TransactionsDetailsTable.HandleCounterpartyChange | apps/frontend/src/components/TransactionsDetailsTable.tsx:220-229 | only `counterparty` changes, and it reads back as exactly the chosen ids |
| TransactionsDetailsTable.HandleProductChange | apps/frontend/src/components/TransactionsDetailsTable.tsx:191-205 | only `productName` changes, to the labels of the chosen options in the options' order (`Labels` of the `Store.Filter` of the options by chosen id) |
| TransactionsDetailsTable.ChosenProductsStayChosen | apps/frontend/src/components/TransactionsDetailsTable.tsx:191-254 | after a product change every chosen option shows as chosen |
| TransactionsDetailsTable.HandleFilterChange | apps/frontend/src/components/TransactionsDetailsTable.tsx:77-99 | nothing for the amount inputs; otherwise only the named key changes, to the selected option values for `category` and `productName` and to the value for the text keys |
| TransactionsDetailsTable.WithAmount | apps/frontend/src/components/TransactionsDetailsTable.tsx:115-121 | the amount key holds the value and no other key changes |
| TransactionsDetailsTable.FilteredData | apps/frontend/src/components/TransactionsDetailsTable.tsx:232-236 | the data shown is the data received, element for element |
| TransactionsDetailsTable.AmountInputs.constructor | apps/frontend/src/components/TransactionsDetailsTable.tsx:67-68 | the pending amounts start as the filter state's |
| TransactionsDetailsTable.AmountInputs.Sync | apps/frontend/src/components/TransactionsDetailsTable.tsx:71-74 | the pending amounts follow the filter state's |
| TransactionsDetailsTable.AmountInputs.InputChange | apps/frontend/src/components/TransactionsDetailsTable.tsx:102-110 | only the typed-in input's pending amount changes |
| TransactionsDetailsTable.AmountInputs.Blur | apps/frontend/src/components/TransactionsDetailsTable.tsx:113-126 | the emitted state has that input's pending amount in its key, every other key as before |
| TransactionsDetailsTable.AmountInputs.KeyPress | apps/frontend/src/components/TransactionsDetailsTable.tsx:129-144 | a state is emitted exactly for "Enter", and then as on blur |
| TransactionsDetailsTable.AmountInputs.Clear | apps/frontend/src/components/TransactionsDetailsTable.tsx:147-176 | both the pending amount and the filter key become '', the other input untouched |
| TransactionsDetailsTable.TypeThenBlur | apps/frontend/src/components/TransactionsDetailsTable.tsx:102-126 | typing and leaving an input puts exactly what was typed into that key only |
| TransactionsDetailsTable.SyncThenBlur | apps/frontend/src/components/TransactionsDetailsTable.tsx:70-126 | once the pending amounts have followed the filter state, leaving an input without typing emits that state unchanged |
| FilterIds.ToStrings | apps/frontend/src/components/TransactionsDetailsTable.tsx:182 | one string per id |
| FilterIds.ParseIds | apps/frontend/src/components/TransactionsDetailsTable.tsx:239-241 | an id is kept exactly when some string parses to it; no more ids than strings |
| FilterIds.ParseIdsOfToStrings | apps/frontend/src/components/TransactionsDetailsTable.tsx:179-249 | the ids stored as strings read back as the same ids, in order |
| FilterIds.LabelsOfSelected | apps/frontend/src/components/TransactionsDetailsTable.tsx:193-195 | the labels (`Labels`) of the items the `Store.Filter` by chosen id keeps, in the items' order; so exactly the labels of the chosen items |
| FilterIds.Labels | apps/frontend/src/components/TransactionsDetailsTable.tsx:193-195 | one label per item, position by position |
| FilterIds.LabelsOfAllSelected | apps/frontend/src/components/TransactionsDetailsTable.tsx:193-195 | with every item chosen, all labels in item order |
| FilterIds.IdsWithLabels | apps/frontend/src/components/TransactionsDetailsTable.tsx:252-254 | exactly the ids of the items whose label is listed |
| FilterIds.ChosenIdsSurviveLabels | apps/frontend/src/components/TransactionsDetailsTable.tsx:193-254 | a chosen id some item has survives the trip through labels |
| FilterIds.UniqueLabelsRoundTrip | apps/frontend/src/components/TransactionsDetailsTable.tsx:193-254 | with labels unique to ids, the trip through labels gives exactly the chosen ids some item has |
| FilterIds.SharedLabelSelectsBoth | apps/frontend/src/components/TransactionsDetailsTable.tsx:252-254 | two products sharing a label: choosing one selects both |
| TransactionsTable.GetTransactionType | apps/frontend/src/components/TransactionsTable.tsx:26-34 | a transfer exactly when linked; an expense exactly when unlinked and negative; an income exactly when unlinked and not negative |
| TransactionsTable.TypeDependsOnLinkAndSign | apps/frontend/src/components/TransactionsTable.tsx:26-34 | the type depends only on the link and, when unlinked, on the sign |
| TransactionsTable.HandleFilterChange | apps/frontend/src/components/TransactionsTable.tsx:72-80 | the named text key holds the value and nothing else changes |
| TransactionsTable.HandleAccountChange | apps/frontend/src/components/TransactionsTable.tsx:83-92 | only `account` changes, and it reads back as exactly the chosen ids |
| TransactionsTable.HandleCounterpartyChange | apps/frontend/src/components/TransactionsTable.tsx:95-104 | only `counterparty` changes, and it reads back as exactly the chosen ids |
| TransactionsTable.DropdownsIndependent | apps/frontend/src/components/TransactionsTable.tsx:83-120 | choosing counterparties keeps the chosen accounts, and the other way round |
| UniversalSelectDropdown.Without | apps/frontend/src/components/UniversalSelectDropdown.tsx:48 | the id is gone and every other id is kept |
| UniversalSelectDropdown.Toggle | apps/frontend/src/components/UniversalSelectDropdown.tsx:46-51 | a chosen id loses every occurrence; another is appended; membership of the id flips and no other changes |
| UniversalSelectDropdown.ToggleTwiceSameSet | apps/frontend/src/components/UniversalSelectDropdown.tsx:46-51 | two toggles of one id give back the same set of ids |
| UniversalSelectDropdown.ToggleTwiceRestores | apps/frontend/src/components/UniversalSelectDropdown.tsx:46-51 | for an id not chosen, two toggles give back the very same list |
| UniversalSelectDropdown.FilteredItems | apps/frontend/src/components/UniversalSelectDropdown.tsx:83-85 | exactly the items whose label contains the term, ignoring case |
| UniversalSelectDropdown.EmptyTermKeepsAll | apps/frontend/src/components/UniversalSelectDropdown.tsx:83-85 | an empty term keeps every item, in order |
| UniversalSelectDropdown.Ids | apps/frontend/src/components/UniversalSelectDropdown.tsx:69 | the ids of the items, position by position |
| UniversalSelectDropdown.SelectAll | apps/frontend/src/components/UniversalSelectDropdown.tsx:67-71 | exactly the ids of the items the search shows |
| UniversalSelectDropdown.SelectAllWithoutTerm | apps/frontend/src/components/UniversalSelectDropdown.tsx:67-71 | with no term, every item's id, in order |
| UniversalSelectDropdown.ClearAll | apps/frontend/src/components/UniversalSelectDropdown.tsx:73-76 | no id is chosen |
| UniversalSelectDropdown.DisplayText | apps/frontend/src/components/UniversalSelectDropdown.tsx:87-93 | the placeholder when no item is chosen; otherwise the chosen labels (`FilterIds.LabelsOfSelected`, in the items' order) joined by ", " |
| UniversalSelectDropdown.DisplayTextOfOne | apps/frontend/src/components/UniversalSelectDropdown.tsx:87-93 | with one item chosen, its label |
| UniversalSelectDropdown.UnknownIdsIgnored | apps/frontend/src/components/UniversalSelectDropdown.tsx:87-89 | ids no item has do not change the labels |
| UniversalSelectDropdown.Dropdown.constructor | apps/frontend/src/components/UniversalSelectDropdown.tsx:22-23 | closed, with an empty term |
| UniversalSelectDropdown.Dropdown.ToggleDropdown | apps/frontend/src/components/UniversalSelectDropdown.tsx:27-35 | nothing when disabled; otherwise open flips, and closing clears the term |
| UniversalSelectDropdown.Dropdown.ClickOutside | apps/frontend/src/components/UniversalSelectDropdown.tsx:53-58 | a press outside closes and clears the term; one inside changes nothing |
| UniversalSelectDropdown.Dropdown.SearchChange | apps/frontend/src/components/UniversalSelectDropdown.tsx:78-80 | the term is the value typed |
| UniversalSelectDropdown.Dropdown.Shown | apps/frontend/src/components/UniversalSelectDropdown.tsx:83-85 | exactly the items matching the current term |
| UniversalSelectDropdown.OpenSearchClose | apps/frontend/src/components/UniversalSelectDropdown.tsx:27-80 | opening, typing and closing leaves it closed with an empty term |
| MultiSelectDropdown.WithoutValue | apps/frontend/src/components/MultiSelectDropdown.tsx:57 | the value is gone and every other value is kept |
| MultiSelectDropdown.HandleOptionChange | apps/frontend/src/components/MultiSelectDropdown.tsx:48-61 | the component's name goes along; checking appends; unchecking removes every occurrence |
| MultiSelectDropdown.CheckThenUncheckRemovesAll | apps/frontend/src/components/MultiSelectDropdown.tsx:54-57 | checking a chosen value adds a second copy, and unchecking then removes both |
| MultiSelectDropdown.CheckThenUncheckRestores | apps/frontend/src/components/MultiSelectDropdown.tsx:54-57 | for a value not chosen, check then uncheck gives back the same list |
| MultiSelectDropdown.ChosenLabels | apps/frontend/src/components/MultiSelectDropdown.tsx:63-66 | the labels (`OptionLabels`) of the options the `Store.Filter` by chosen value keeps, in the options' order; so exactly the labels of the chosen options |
| MultiSelectDropdown.OptionLabels | apps/frontend/src/components/MultiSelectDropdown.tsx:66 | one label per option, position by position |
| MultiSelectDropdown.DisplayText | apps/frontend/src/components/MultiSelectDropdown.tsx:63-68 | '' when nothing is chosen; otherwise the chosen labels (`ChosenLabels`, in the options' order) joined by ", " |
| MultiSelectDropdown.DisplayTextEmptyIff | apps/frontend/src/components/MultiSelectDropdown.tsx:63-68 | with non-empty labels, the text is empty exactly when no option's value is chosen |
| MultiSelectDropdown.Dropdown.constructor | apps/frontend/src/components/MultiSelectDropdown.tsx:27 | closed |
| MultiSelectDropdown.Dropdown.HandleToggle | apps/frontend/src/components/MultiSelectDropdown.tsx:44-46 | open flips |
| MultiSelectDropdown.Dropdown.ClickOutside | apps/frontend/src/components/MultiSelectDropdown.tsx:31-36 | a press outside closes; one inside changes nothing |
| CategoryTree.Convert | apps/frontend/src/components/CategoryTree.tsx:7-12 | one node per input node, in order, each one mirroring its input at every depth: title = name, key = id, children mirrored one for one, an empty list when absent |
| CategoryTree.ConvertNode | apps/frontend/src/components/CategoryTree.tsx:8-11 | the node mirrors its input at every depth |
| CategoryTree.MirrorIsUnique | apps/frontend/src/components/CategoryTree.tsx:7-12 | a node has exactly one mirror, so the mirroring fixes the whole converted tree |
| CategoryTree.ConvertKeepsCount | apps/frontend/src/components/CategoryTree.tsx:7-12 | as many nodes come out, over all levels, as go in |
| CategoryTree.ConvertNodeKeepsCount | apps/frontend/src/components/CategoryTree.tsx:11 | the node count of one subtree is kept |
| CategoryTree.ConvertAppend | apps/frontend/src/components/CategoryTree.tsx:7-8 | converting two forests one after the other is converting their concatenation |
| LocaleSwitcher.PathWithoutLocale | apps/frontend/src/components/LocaleSwitcher.tsx:15 | a leading `/xx/` becomes `/`; any other path is kept |
| LocaleSwitcher.StripsAnyTwoLetterSegment | apps/frontend/src/components/LocaleSwitcher.tsx:15 | any two-letter segment is stripped, known locale or not |
| LocaleSwitcher.LocaleRootIsKept | apps/frontend/src/components/LocaleSwitcher.tsx:15 | `/uk` without a trailing slash is kept |
| LocaleSwitcher.OnlyFirstSegmentStripped | apps/frontend/src/components/LocaleSwitcher.tsx:15 | `/en/uk/x` becomes `/uk/x` |
| LocaleSwitcher.IndexOf | apps/frontend/src/components/LocaleSwitcher.tsx:18 | −1 exactly when absent; otherwise the first position |
| LocaleSwitcher.NextLocale | apps/frontend/src/components/LocaleSwitcher.tsx:18-19 | a listed locale; the one after the current, cyclically; the first when the current is unknown |
| LocaleSwitcher.TwoLocalesToggle | apps/frontend/src/components/LocaleSwitcher.tsx:18-19 | with `en` and `uk` the button toggles |
| LocaleSwitcher.NextLocaleIsSuccessor | apps/frontend/src/components/LocaleSwitcher.tsx:18-19 | without repeats, each press moves one place along the list |
| LocaleSwitcher.SwitchTarget | apps/frontend/src/components/LocaleSwitcher.tsx:21-24 | `/` + the next locale + the path without its locale segment |
| LocaleSwitcher.SwitchFromLocaleRoot | apps/frontend/src/components/LocaleSwitcher.tsx:15-24 | from `/en`, with no trailing slash, the switch leads to `/uk/en` |
| LocaleSwitcher.SwitchKeepsRest | apps/frontend/src/components/LocaleSwitcher.tsx:15-24 | from `/xx/rest` the target is `/next/rest` |
| LocaleSwitcher.SwitchTwiceReturns | apps/frontend/src/components/LocaleSwitcher.tsx:15-24 | with `en` and `uk`, two presses come back to the same path |
| Middleware.GetLocale | apps/frontend/src/middleware.ts:11-22 | the matcher's answer, or `uk` when it throws |
| Middleware.GetLocaleIsSupported | apps/frontend/src/middleware.ts:7-21 | when the matcher answers with supported locales, so does `getLocale` |
| Middleware.MissingLocale | apps/frontend/src/middleware.ts:29-33 | true exactly when, for every locale, the path neither starts with `/loc/` nor is `/loc` |
| Middleware.MissingLocaleExamples | apps/frontend/src/middleware.ts:29-33 | `/en` and `/uk/x` have a locale; `/english` and `/` do not |
| Middleware.RedirectUrl | apps/frontend/src/middleware.ts:41-45 | the path is `/` + locale + pathname and the query string is kept |
| Middleware.RedirectHasLocale | apps/frontend/src/middleware.ts:29-41 | for a listed locale and a path starting with `/`, the redirected path is not missing a locale |
| Middleware.HandleRequest | apps/frontend/src/middleware.ts:24-57 | a redirect exactly when the path is missing a locale, to the detected locale's URL |
| Middleware.RedirectIsFinal | apps/frontend/src/middleware.ts:29-57 | the request after the redirect goes on to the internationalisation handler |

Where the repository's description of the system and its code differ, the
model follows the code:

- A category whose parent is not in the input is dropped by `findAllTree`,
  not promoted to a root (`CategoriesService.OrphanIsDropped`).
- Category paths are joined by '/' only.
- The transactions returned by the query service keep a null
  `description` as null. Only the accounts listing and the category nodes
  turn null into absent.
- Amounts are the numbers the request carries, not integers in minor units.
  They are exact reals here.
- A numeric filter parameter that does not parse (account, counterparty,
  amount bounds) is not dropped from the query: it reaches the `where`
  object as NaN, and the store refuses the query
  (`DetailsQuery.NaNAmountBoundRefused`,
  `DetailsQuery.NonNumericAccountIdRefused`). Only the id lists drop NaN.
- The legacy service passes `userAccountId` and `categoryId` unconverted.
  From a query string they are strings, and the store refuses them for an
  integer column (`LegacyTransactions.StringIdsRefused`).

Other behaviour of the code, modelled as written:

- The pathed category is overwritten with undefined in the product DTO.
  Only the detail's own `categoryPath` carries the path
  (`DetailsAssembly.ProductDtoCategoryIsDropped`).
- The post-filter compares the product names untrimmed.
- `categoryIds: []` drops transactions without details.
- `selectedProductIds` also shows as chosen the products that share a
  label with a chosen one (`FilterIds.SharedLabelSelectsBoth`).
- From `/en`, with no trailing slash, the locale switch navigates to
  `/uk/en` (`LocaleSwitcher.SwitchFromLocaleRoot`).
- The legacy service reads `userAccountId`, `categoryId` and `productName`,
  which the request classes of its directory do not declare. The model
  takes them as optional values.

## Left out

- The relational store: SQL three-valued logic, the collation of `orderBy`,
  and referential integrity. Tables are sequences in the order the store
  returns them. Relations between rows are not assumed consistent.
- The `$transaction` block is all-or-nothing by construction. A method
  either assigns the tables or leaves them untouched.
- Authentication (bearer tokens, sessions, Redis), controllers, modules and
  the API proxy routes. They only supply an agent id or forward HTTP.
- Rendering, theme handling, `formatCurrency` and `formatDate`. These are
  DOM, locale formatting and floating point.
- Floating-point rounding in the amount sum. Amounts are `real`.
- `new Date(s)` is the parameter `parseDate`.
- The store's validation of a `where` object is modelled only as refusing
  a value that is not an integer for an integer column, and a date string
  its own format does not accept. That format is the parameter `storeDate`.
  The error message and its HTTP status are left out; a refusal is the
  outcome `Refused`.
- The Accept-Language negotiation of `getLocale` is the parameter `matcher`.
- The locale list of the switch is a parameter, because the i18n
  configuration does not export it.
- `toLowerCase` and the store's case-insensitive mode lower-case ASCII
  letters only.
- `Number.prototype.toString` is modelled for integers only: no exponent
  forms, no -0, and no precision limit beyond 2^53. `parseInt` likewise
  returns the exact integer its digits denote, where JavaScript rounds it to
  the nearest double beyond 2^53.
- `onFilterChange` is optional in the tables. Each handler returns the state
  it would be called with.
- The dropdowns' `dropdownRef` null case, focus handling and `setTimeout`
  are left out. `ClickOutside` takes whether the press was inside as a
  parameter.
- URL normalisation of dot segments in the redirect is left out.
- `Object.values` order in the path loop is left out. The loop visits the
  ids in the order they were first met, and the result does not depend on
  it.
- `TransactionsTable`'s `filteredData` (TransactionsTable.tsx:107-111) is
  the same identity as `TransactionsDetailsTable.FilteredData`, and is not
  modelled twice.
- TransactionsDetailsTable.HandleFilterChange: requires the name not to be
  `account` or `counterparty`. The table has no plain input with those
  names, and a string cannot be stored in their list type.
- TransactionsTable.HandleFilterChange: requires a text key. The table's
  inputs with a `name` are the two dates and the search text.
- LocaleSwitcher.NextLocale: requires a non-empty locale list. With none,
  the source indexes `undefined`.
- CategoryPaths.CategoryPath: requires the parent chain to end within the
  fuel. The source's recursion has no bound; `Acyclic` gives one for every
  stored category.
- CategoriesService.FindAllTree: requires ascending unique ids, as the
  store returns them (`orderBy: { id: 'asc' }` over a primary key).
- ProductsService.FindSelectItems: states only the length in its own
  contract. The order and contents are in
  `ProductsService.SelectItemsFollowAgentProducts`.
