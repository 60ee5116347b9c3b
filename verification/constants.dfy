/** The enumerations the `init` command and the link table share: the two
    environments and the three authentication methods with the values the
    command line accepts for them. */
module Constants {

  /** `ENVIRONMENTS.PROD` and `ENVIRONMENTS.QA`. */
  datatype Env = Prod | Qa

  /** The three ways of authenticating a portal. */
  datatype AuthMethod = PersonalAccessKey | OAuth | ApiKey

  /** The `.value` of each auth-method constant, as the `--auth` option
      lists them. */
  function AuthValue(m: AuthMethod): (v: string)
    ensures |v| > 0
  {
    match m
    case PersonalAccessKey => "personalaccesskey"
    case OAuth => "oauth2"
    case ApiKey => "apikey"
  }

  /** Distinct methods have distinct values, so a value names one method. */
  lemma AuthValueInjective(m: AuthMethod, n: AuthMethod)
    ensures AuthValue(m) == AuthValue(n) <==> m == n
  {
    if m != n {
      assert AuthValue(m)[0] != AuthValue(n)[0] || |AuthValue(m)| != |AuthValue(n)|;
    }
  }
}
