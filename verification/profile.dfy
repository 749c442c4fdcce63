/** The deployment profile `AppEnv` with its text form (`Display`) and its
    parser (`FromStr`). The two are a case-sensitive bijection between the
    variants and the strings "dev" and "prod". */
module Profile {
  import opened Results

  datatype AppEnv = Dev | Prod

  /** The canonical lower-case text of a profile. */
  function Display(p: AppEnv): (s: string)
    ensures s == "dev" || s == "prod"
    ensures p == Dev <==> s == "dev"
  {
    match p
    case Dev => "dev"
    case Prod => "prod"
  }

  /** The error text for a value that names no profile. */
  function InvalidMessage(s: string): (m: string)
    ensures |m| == |"Invalid APP_ENV: "| + |s| + |". Must be 'dev' or 'prod'"|
    ensures m[..|"Invalid APP_ENV: "|] == "Invalid APP_ENV: "
    ensures m[|"Invalid APP_ENV: "|..|"Invalid APP_ENV: "| + |s|] == s
    ensures m[|"Invalid APP_ENV: "| + |s|..] == ". Must be 'dev' or 'prod'"
  {
    "Invalid APP_ENV: " + s + ". Must be 'dev' or 'prod'"
  }

  /** Parses a profile name. Exactly "dev" and "prod" are accepted, and each
      is the text form of the profile it yields; every other string, case
      variants included, is rejected with a message naming it. */
  function FromStr(s: string): (r: Result<AppEnv, string>)
    ensures r.Ok? <==> s == "dev" || s == "prod"
    ensures r.Ok? ==> Display(r.value) == s
    ensures r.Err? ==> r.error == InvalidMessage(s)
  {
    if s == "dev" then Ok(Dev)
    else if s == "prod" then Ok(Prod)
    else Err(InvalidMessage(s))
  }

  /** Parsing the text form of a profile gives that profile back. */
  lemma DisplayRoundTrip(p: AppEnv)
    ensures FromStr(Display(p)) == Ok(p)
  {
  }

  /** Whatever parses is the text form of what it parses to, so text and
      profile determine each other. */
  lemma FromStrInverse(s: string, p: AppEnv)
    ensures FromStr(s) == Ok(p) <==> Display(p) == s
  {
  }

  /** Distinct profiles have distinct text forms. */
  lemma DisplayInjective(p: AppEnv, q: AppEnv)
    ensures Display(p) == Display(q) ==> p == q
  {
  }

  /** Matching is case-sensitive: capitalised and other names are errors. */
  lemma FromStrRejectsOtherNames()
    ensures FromStr("Dev") == Err("Invalid APP_ENV: Dev. Must be 'dev' or 'prod'")
    ensures FromStr("PROD").Err?
    ensures FromStr("staging") == Err("Invalid APP_ENV: staging. Must be 'dev' or 'prod'")
    ensures FromStr("").Err?
  {
    assert "Dev"[0] != "dev"[0] && "Dev"[0] != "prod"[0];
    assert "staging"[0] != "dev"[0] && "staging"[0] != "prod"[0];
    assert "Invalid APP_ENV: " + "Dev" + ". Must be 'dev' or 'prod'" == "Invalid APP_ENV: Dev. Must be 'dev' or 'prod'";
    assert "Invalid APP_ENV: " + "staging" + ". Must be 'dev' or 'prod'" == "Invalid APP_ENV: staging. Must be 'dev' or 'prod'";
  }
}
