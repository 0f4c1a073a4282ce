/** `create` of the transactions-with-details service
    (apps/backend/src/transactions_details/transactions_details.service.ts):
    the amount check, then the ownership check of both accounts, then one
    atomic write of the transaction row and its detail rows. */
module DetailsCreate {
  import opened Wrappers
  import opened Store
  import opened DetailsSum

  /** The fields of a creation request; `description` None is "not given". */
  datatype CreateRequest = CreateRequest(
    accountId: int, counterpartyId: int, amount: real, date: Timestamp,
    name: string, description: Option<string>, details: seq<DetailInput>)

  datatype CreateError =
    | BadRequest   // the total does not match the sum of details
    | NotFound     // one of the accounts is missing or is not the agent's

  datatype CreateResult = Created(transaction: Transaction) | Rejected(error: CreateError)

  /** The transaction row the store creates with the given id; a missing
      description is stored as null, and no transfer link is set. */
  function NewTransaction(req: CreateRequest, agentId: int, id: int): (t: Transaction)
    ensures t.id == id && t.agentId == agentId
    ensures t.name == req.name && t.amount == req.amount && t.date == req.date
    ensures t.accountId == req.accountId && t.counterpartyId == req.counterpartyId
    ensures t.description.NonNull? <==> req.description.Some?
    ensures req.description.Some? ==> t.description.value == req.description.value
    ensures t.transferLinkedTransactionId.Null?
  {
    Transaction(id, agentId, req.name,
                if req.description.Some? then NonNull(req.description.value) else Null,
                req.amount, req.date, req.accountId, req.counterpartyId, Null)
  }

  /** `details.map(detail => ({ ...detail, transactionId, agentId }))`, with
      the ids the store assigns from `firstId` on. */
  function StampDetails(inputs: seq<DetailInput>, transactionId: int, agentId: int, firstId: int): (r: seq<TransactionDetail>)
    ensures |r| == |inputs|
    ensures forall i :: 0 <= i < |r| ==>
      r[i].id == firstId + i && r[i].transactionId == transactionId && r[i].agentId == agentId &&
      r[i].productOrServiceId == inputs[i].productOrServiceId &&
      r[i].quantity == inputs[i].quantity && r[i].pricePerUnit == inputs[i].pricePerUnit
  {
    if inputs == [] then []
    else
      [TransactionDetail(firstId, transactionId, inputs[0].productOrServiceId,
                         inputs[0].quantity, inputs[0].pricePerUnit, agentId)]
      + StampDetails(inputs[1..], transactionId, agentId, firstId + 1)
  }

  /** Whether the request passes both checks against the given accounts. */
  predicate Accepted(accounts: seq<Account>, req: CreateRequest, agentId: int) {
    !AmountMismatch(req.details, req.amount) &&
    FindAccount(accounts, req.accountId, agentId).Some? &&
    FindAccount(accounts, req.counterpartyId, agentId).Some?
  }

  /** `create`. The amount check comes first, so a request that fails both
      checks is a bad request. A refused request writes nothing; an accepted
      one appends exactly one transaction and one detail per input, and
      returns the bare transaction row. */
  method Create(db: Db, req: CreateRequest, agentId: int) returns (r: CreateResult)
    requires db.Valid()
    modifies db`transactions, db`details, db`nextTransactionId, db`nextDetailId
    ensures db.Valid()
    ensures r == Rejected(BadRequest) <==> AmountMismatch(req.details, req.amount)
    ensures r == Rejected(NotFound) <==>
              !AmountMismatch(req.details, req.amount) &&
              (FindAccount(db.accounts, req.accountId, agentId).None? ||
               FindAccount(db.accounts, req.counterpartyId, agentId).None?)
    ensures r.Created? <==> Accepted(db.accounts, req, agentId)
    ensures r.Rejected? ==> unchanged(db)
    ensures r.Created? ==>
              r.transaction == NewTransaction(req, agentId, old(db.nextTransactionId)) &&
              db.transactions == old(db.transactions) + [r.transaction] &&
              db.details == old(db.details) + StampDetails(req.details, r.transaction.id, agentId, old(db.nextDetailId)) &&
              db.nextTransactionId == old(db.nextTransactionId) + 1 &&
              db.nextDetailId == old(db.nextDetailId) + |req.details|
  {
    if AmountMismatch(req.details, req.amount) {
      return Rejected(BadRequest);
    }
    var userAccount := FindAccount(db.accounts, req.accountId, agentId);
    var counterpartyAccount := FindAccount(db.accounts, req.counterpartyId, agentId);
    if userAccount.None? || counterpartyAccount.None? {
      return Rejected(NotFound);
    }
    var transaction := NewTransaction(req, agentId, db.nextTransactionId);
    var rows := StampDetails(req.details, transaction.id, agentId, db.nextDetailId);
    db.transactions := db.transactions + [transaction];
    db.nextTransactionId := db.nextTransactionId + 1;
    db.details := db.details + rows;
    db.nextDetailId := db.nextDetailId + |rows|;
    r := Created(transaction);
  }
}
