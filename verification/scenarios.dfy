/** The behaviours the source's own tests check, restated as facts about
    concrete file contents. */
module Scenarios {
  import opened Results
  import opened EnvMap
  import opened Profile
  import opened Cascade
  import opened CascadeLaws

  /** The sources `init` opens for the profile `Dev`. */
  function DevSources(open: string -> Source): (sources: seq<Source>)
    ensures sources == [open(".env"), open(".env.dev"), open(".env.local")]
  {
    var names := Candidates(Dev);
    assert ".env." + Display(Dev) == ".env.dev";
    assert names == [".env", ".env.dev", ".env.local"];
    OpenAll(open, names)
  }

  /** With a profile that resolves, `init` is the load of its candidates. */
  lemma InitLoadsCandidates(appEnv: VarLookup, open: string -> Source, env: Env)
    requires ResolveProfile(appEnv).Ok?
    ensures Init(appEnv, open, env) ==
      match LoadFiles(OpenAll(open, Candidates(ResolveProfile(appEnv).value)), env)
      case Completed(env') => Completed(env')
      case Aborted(e, env') => Aborted(Dotenv(e), env')
  {
  }

  /** `.env` sets VAR1 and VAR2, `.env.dev` sets VAR2 and VAR3, `.env.local`
      sets VAR3; nothing else can be opened. */
  function CascadeFiles(name: string): Source
  {
    if name == ".env" then Some([Ok(("VAR1", "from_base")), Ok(("VAR2", "from_base"))])
    else if name == ".env.dev" then Some([Ok(("VAR2", "from_dev")), Ok(("VAR3", "from_dev"))])
    else if name == ".env.local" then Some([Ok(("VAR3", "from_local"))])
    else None
  }

  /** The items of the three cascade files, read in order. */
  lemma CascadeFileItems()
    ensures CascadeItems(Dev, CascadeFiles) ==
      [Ok(("VAR1", "from_base")), Ok(("VAR2", "from_base")),
       Ok(("VAR2", "from_dev")), Ok(("VAR3", "from_dev")),
       Ok(("VAR3", "from_local"))]
  {
    var s := DevSources(CascadeFiles);
    assert s == [CascadeFiles(".env"), CascadeFiles(".env.dev"), CascadeFiles(".env.local")];
    assert Flatten(s[1..][1..][1..]) == [];
    assert Flatten(s[1..][1..]) == CascadeFiles(".env.local").value;
    assert Flatten(s[1..]) == CascadeFiles(".env.dev").value + CascadeFiles(".env.local").value;
    assert Flatten(s) == CascadeFiles(".env").value + CascadeFiles(".env.dev").value + CascadeFiles(".env.local").value;
    assert CascadeItems(Dev, CascadeFiles) == Flatten(s);
  }

  /** With `APP_ENV` unset, each variable takes the value of the last file
      that sets it, and other variables are left alone. */
  lemma CascadeScenario(env: Env)
    ensures Init(NotPresent, CascadeFiles, env).Completed?
    ensures Init(NotPresent, CascadeFiles, env).env ==
      env["VAR1" := "from_base"]["VAR2" := "from_dev"]["VAR3" := "from_local"]
  {
    var items := CascadeItems(Dev, CascadeFiles);
    CascadeFileItems();
    assert OkPrefix(items) == |items|;
    assert items[..|items|] == items;
    var pairs := Pairs(items);
    assert pairs == [("VAR1", "from_base"), ("VAR2", "from_base"), ("VAR2", "from_dev"),
                     ("VAR3", "from_dev"), ("VAR3", "from_local")];
    AssignFive(pairs, env);
    var r := Init(NotPresent, CascadeFiles, env);
    assert ResolveProfile(NotPresent) == Ok(Dev);
    assert r.Completed? && r.env == Assign(pairs, env);
    var e1 := env["VAR1" := "from_base"];
    Overwrite(e1, "VAR2", "from_base", "from_dev");
    Overwrite(e1["VAR2" := "from_dev"], "VAR3", "from_dev", "from_local");
  }

  /** A second write of a key replaces the first. */
  lemma Overwrite(m: Env, k: string, a: string, b: string)
    ensures m[k := a][k := b] == m[k := b]
  {
  }

  lemma AssignFive(pairs: seq<Pair>, env: Env)
    requires |pairs| == 5
    ensures Assign(pairs, env) ==
      env[pairs[0].0 := pairs[0].1][pairs[1].0 := pairs[1].1][pairs[2].0 := pairs[2].1]
         [pairs[3].0 := pairs[3].1][pairs[4].0 := pairs[4].1]
  {
    var e1 := env[pairs[0].0 := pairs[0].1];
    var e2 := e1[pairs[1].0 := pairs[1].1];
    var e3 := e2[pairs[2].0 := pairs[2].1];
    var e4 := e3[pairs[3].0 := pairs[3].1];
    var e5 := e4[pairs[4].0 := pairs[4].1];
    assert Assign(pairs[4..], e4) == Assign([], e5) by {
      assert pairs[4..][1..] == [];
    }
    assert Assign(pairs[3..], e3) == Assign(pairs[4..], e4) by {
      assert pairs[3..][1..] == pairs[4..];
    }
    assert Assign(pairs[2..], e2) == Assign(pairs[3..], e3) by {
      assert pairs[2..][1..] == pairs[3..];
    }
    assert Assign(pairs[1..], e1) == Assign(pairs[2..], e2) by {
      assert pairs[1..][1..] == pairs[2..];
    }
  }

  /** Only a base file and a production file exist, and `APP_ENV=prod`. */
  function ProdFiles(name: string): Source
  {
    if name == ".env" then Some([Ok(("BASE_VAR", "base"))])
    else if name == ".env.prod" then Some([Ok(("PROD_VAR", "production"))])
    else None
  }

  lemma ProdScenario(env: Env)
    ensures Init(Present("prod"), ProdFiles, env) ==
      Completed(env["BASE_VAR" := "base"]["PROD_VAR" := "production"])
  {
    var names := Candidates(Prod);
    assert ".env." + Display(Prod) == ".env.prod";
    assert names == [".env", ".env.prod", ".env.local"];
    var s := OpenAll(ProdFiles, names);
    assert ".env.local" != ".env.prod" by {
      assert ".env.local"[5] != ".env.prod"[5];
    }
    assert s == [ProdFiles(".env"), ProdFiles(".env.prod"), None];
    var env1 := env["BASE_VAR" := "base"];
    assert ApplyItems(s[0].value, env) == Completed(env1);
    assert ApplyItems(s[1].value, env1) == Completed(env1["PROD_VAR" := "production"]);
    assert LoadFiles(s[1..][1..], env1["PROD_VAR" := "production"]) == Completed(env1["PROD_VAR" := "production"]);
    assert LoadFiles(s[1..], env1) == Completed(env1["PROD_VAR" := "production"]);
    assert LoadFiles(s, env) == Completed(env1["PROD_VAR" := "production"]);
    InitLoadsCandidates(Present("prod"), ProdFiles, env);
  }

  /** `.env` sets A, `.env.dev` holds a malformed line and then sets B: the
      call fails, A stays written, B is never written. */
  function BrokenProfileFile(name: string): Source
  {
    if name == ".env" then Some([Ok(("A", "1"))])
    else if name == ".env.dev" then Some([Err(LineError("BAD LINE NO EQUALS")), Ok(("B", "2"))])
    else if name == ".env.local" then Some([Ok(("C", "3"))])
    else None
  }

  lemma AbortScenario(env: Env)
    ensures Init(NotPresent, BrokenProfileFile, env) ==
      Aborted(Dotenv(LineError("BAD LINE NO EQUALS")), env["A" := "1"])
  {
    var s := DevSources(BrokenProfileFile);
    assert s == [BrokenProfileFile(".env"), BrokenProfileFile(".env.dev"), BrokenProfileFile(".env.local")];
    assert ApplyItems(s[0].value, env) == Completed(env["A" := "1"]);
    assert ApplyItems(s[1].value, env["A" := "1"]) == Aborted(LineError("BAD LINE NO EQUALS"), env["A" := "1"]);
    assert LoadFiles(s[1..], env["A" := "1"]) == Aborted(LineError("BAD LINE NO EQUALS"), env["A" := "1"]);
    assert LoadFiles(s, env) == Aborted(LineError("BAD LINE NO EQUALS"), env["A" := "1"]);
    assert OpenAll(BrokenProfileFile, Candidates(Dev)) == s;
    InitLoadsCandidates(NotPresent, BrokenProfileFile, env);
  }
}
