/** The data-transfer shapes of the backend and the mappers that build them
    by object spread (apps/backend/src/dto/prisma-dto.ts). A DTO keeps the
    record it extends as one field, so "every field is copied" is equality
    of that field. */
module PrismaDto {
  import opened Wrappers
  import opened Store

  /** A category with the two transient fields the query service fills in. */
  datatype CategoryDto = CategoryDto(category: Category, categoryPath: Option<string>, categoryId: Option<int>)

  /** A product with its (optional) category DTO and its included units. */
  datatype ProductOrServiceDto = ProductOrServiceDto(
    product: Product, category: Option<CategoryDto>,
    unit: Nullable<MeasureUnit>, pieceSizeUnit: Nullable<MeasureUnit>)

  datatype TransactionDetailDto = TransactionDetailDto(
    detail: TransactionDetail, productOrService: Option<ProductOrServiceDto>,
    categoryPath: Option<string>)

  datatype TransactionDto = TransactionDto(
    transaction: Transaction, account: AccountWithCurrency,
    counterparty: AccountWithCurrency, details: Option<seq<TransactionDetailDto>>)

  /** `toCategoryDto`: a field-for-field copy, without the transient fields. */
  function ToCategoryDto(category: Category): (r: CategoryDto)
    ensures r.category == category
    ensures r.categoryPath.None? && r.categoryId.None?
  {
    CategoryDto(category, None, None)
  }

  /** `toProductOrServiceDto(pos, category)`: `{ ...pos, category }`. The
      spread keeps the product and its units; `category` is always exactly
      the second argument, so a call with one argument (`category` None)
      drops whatever category `pos` carried. */
  function ToProductOrServiceDto(pos: ProductOrServiceDto, category: Option<CategoryDto>): (r: ProductOrServiceDto)
    ensures r.product == pos.product && r.unit == pos.unit && r.pieceSizeUnit == pos.pieceSizeUnit
    ensures r.category == category
  {
    pos.(category := category)
  }

  /** `toTransactionDetailDto(detail, productOrService, categoryPath)`. */
  function ToTransactionDetailDto(
    detail: TransactionDetail, productOrService: Option<ProductOrServiceDto>,
    categoryPath: Option<string>): (r: TransactionDetailDto)
    ensures r.detail == detail
    ensures r.productOrService == productOrService && r.categoryPath == categoryPath
  {
    TransactionDetailDto(detail, productOrService, categoryPath)
  }

  /** `toTransactionDto({ ...tx, account, counterparty }, details)`: every
      transaction field and both accounts are kept, and `details` is the
      argument, not the fetched details the spread brought along. */
  function ToTransactionDto(tx: FetchedTransaction, details: Option<seq<TransactionDetailDto>>): (r: TransactionDto)
    ensures r.transaction == tx.transaction
    ensures r.account == tx.account && r.counterparty == tx.counterparty
    ensures r.details == details
  {
    TransactionDto(tx.transaction, tx.account, tx.counterparty, details)
  }

  /** The one-argument call overwrites a category the input carried. */
  lemma OneArgumentCallDropsCategory(pos: ProductOrServiceDto)
    requires pos.category.Some?
    ensures ToProductOrServiceDto(pos, None).category == None
    ensures ToProductOrServiceDto(pos, None) != pos
  {
  }
}
