/** The shared shapes of `src/types/index.ts`: roles, the signed-in user and
    the entries of the navigation menu. */
module Types {
  import opened Seqs

  datatype Role = Admin | Manager | Cashier

  /** The role as the source spells it. */
  function RoleKey(r: Role): string
  {
    match r
    case Admin => "admin"
    case Manager => "manager"
    case Cashier => "cashier"
  }

  datatype User = User(id: string, name: string, email: string, role: Role, avatar: Option<string>)

  /** An entry of the navigation menu and the roles allowed to see it;
      `caption` is the source's `label`, a word Dafny reserves. */
  datatype MenuItem = MenuItem(
    id: string,
    caption: string,
    icon: string,
    href: string,
    roles: seq<Role>,
    badge: Option<int>)

  /** What a `useX()` hook returns: the provider's value, or the error it
      throws when no provider encloses the caller. */
  datatype HookResult<S> = Provided(value: S) | OutsideProvider(message: string)

  /** The guard both context hooks share: the enclosing provider's value, or
      `message` thrown when there is no provider. */
  function UseContext<S>(ctx: Option<S>, message: string): (r: HookResult<S>)
    ensures r.Provided? <==> ctx.Some?
    ensures ctx.Some? ==> r.value == ctx.value
    ensures ctx.None? ==> r.message == message
  {
    match ctx
    case Some(st) => Provided(st)
    case None => OutsideProvider(message)
  }
}
