/**
 * Who may do what to cards (service/CardServiceImpl.java). The security
 * context the service consults is replaced by an explicit caller.
 */
module AccessPolicy {

  /** The authenticated caller: its name and whether it holds ROLE_ADMIN. */
  datatype Caller = Caller(username: string, isAdmin: bool)

  /** An operation that is subject to a decision, with the owner it concerns where that matters. */
  datatype Action =
    | ListAll
    | View(owner: string)
    | Delete
    | Block(owner: string)
    | Activate

  /** The owner-scoped actions: the ones a card's own user may perform. */
  predicate OwnerScoped(action: Action) {
    action.View? || action.Block?
  }

  /** An admin may do everything; anyone else may only view or block a card of its own. */
  function Permits(caller: Caller, action: Action): (allowed: bool)
    ensures caller.isAdmin ==> allowed
    ensures !caller.isAdmin ==> (allowed <==> OwnerScoped(action) && action.owner == caller.username)
  {
    match action
    case ListAll => caller.isAdmin
    case Delete => caller.isAdmin
    case Activate => caller.isAdmin
    case View(owner) => caller.isAdmin || owner == caller.username
    case Block(owner) => caller.isAdmin || owner == caller.username
  }

  /** Listing all, deleting and activating are for admins only, whoever owns the card. */
  lemma AdminOnlyActions(caller: Caller, action: Action)
    requires !OwnerScoped(action)
    ensures Permits(caller, action) <==> caller.isAdmin
  {
  }

  /** The policy fails closed: a non-admin stranger is refused every action. */
  lemma StrangerRefused(caller: Caller, action: Action)
    requires !caller.isAdmin
    requires OwnerScoped(action) ==> action.owner != caller.username
    ensures !Permits(caller, action)
  {
  }
}
