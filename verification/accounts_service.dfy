/** The account listing (apps/backend/src/accounts/accounts.service.ts):
    `id`, `name` and `description` of every account, with a null
    description turned into an absent one. */
module AccountsService {
  import opened Wrappers
  import opened Store

  /** The selected columns of an account; `description` None is `undefined`. */
  datatype AccountSummary = AccountSummary(id: int, name: string, description: Option<string>)

  /** `{ ...acc, description: acc.description ?? undefined }` for one account. */
  function Summarize(a: Account): (r: AccountSummary)
    ensures r.id == a.id && r.name == a.name
    ensures r.description.None? <==> a.description.Null?
    ensures a.description.NonNull? ==> r.description == Some(a.description.value)
  {
    AccountSummary(a.id, a.name, a.description.OrUndefined())
  }

  /** `findAll`: one summary per fetched account, in the same order. The
      accounts are not filtered by agent. */
  function FindAll(accounts: seq<Account>): (r: seq<AccountSummary>)
    ensures |r| == |accounts|
    ensures forall i :: 0 <= i < |r| ==> r[i].id == accounts[i].id && r[i].name == accounts[i].name
    ensures forall i :: 0 <= i < |r| ==> (r[i].description.None? <==> accounts[i].description.Null?)
    ensures forall i :: 0 <= i < |r| && accounts[i].description.NonNull? ==>
              r[i].description == Some(accounts[i].description.value)
  {
    if accounts == [] then [] else [Summarize(accounts[0])] + FindAll(accounts[1..])
  }
}
