/** The request handler of the subscription worker: a request for
    `/sub/<token>` is checked against the user store and answered with up to
    fourteen configurations from the config store, one per line. The two
    key-value stores are maps, the store listing is the sequence of key names
    it returned, and the random shuffle is an arbitrary permutation of that
    listing supplied by the caller. */
module SubscriptionWorker {
  import opened Strings

  /** At most this many configurations are served per request. */
  const MaxConfigs := 14

  /** A response: status code and body text. */
  datatype Response = Response(status: int, body: string)

  /** The two bindings of the worker: `USERS_DB` and `CONFIGS_DB` (its
      values, and the key names its `list()` returned). */
  datatype Env = Env(users: map<string, string>, configs: map<string, string>, listed: seq<string>)

  /** The token is the last '/'-separated segment of the path. */
  function Token(pathname: string): string {
    LastSegment(pathname, '/')
  }

  /** Only paths under "/sub/" are served. */
  predicate UnderSub(pathname: string) {
    StartsWith(pathname, "/sub/")
  }

  /** `!token || token === 'sub'` */
  predicate MalformedToken(token: string) {
    token == "" || token == "sub"
  }

  /** The user lookup succeeds only for a stored, non-empty (truthy) value. */
  predicate KnownUser(users: map<string, string>, token: string) {
    token in users && users[token] != ""
  }

  /** `slice(0, 14)` of the shuffled keys: the first `min(14, n)` of them. */
  function Select(shuffled: seq<string>): (sel: seq<string>)
    ensures |sel| == (if |shuffled| < MaxConfigs then |shuffled| else MaxConfigs)
    ensures |sel| <= MaxConfigs
    ensures sel <= shuffled
    ensures multiset(sel) <= multiset(shuffled)
    ensures |shuffled| <= MaxConfigs ==> multiset(sel) == multiset(shuffled)
  {
    var sel := if |shuffled| < MaxConfigs then shuffled else shuffled[..MaxConfigs];
    assert shuffled == sel + shuffled[|sel|..];
    sel
  }

  /** Whether the key has a configuration that the `if (config)` test lets
      through: present and non-empty. */
  predicate Served(configs: map<string, string>, key: string) {
    key in configs && configs[key] != ""
  }

  /** The configurations of the selected keys that are served, in order. */
  function Payloads(keys: seq<string>, configs: map<string, string>): (r: seq<string>)
    ensures |r| <= |keys|
  {
    if |keys| == 0 then []
    else (if Served(configs, keys[0]) then [configs[keys[0]]] else []) + Payloads(keys[1..], configs)
  }

  /** Each payload is the non-empty configuration of one of the keys; when
      every key is served there is one payload per key, and when none is
      there are none. */
  lemma {:induction false} PayloadsFromKeys(keys: seq<string>, configs: map<string, string>)
    ensures forall i :: 0 <= i < |Payloads(keys, configs)| ==> Payloads(keys, configs)[i] != ""
    ensures forall i :: 0 <= i < |Payloads(keys, configs)| ==>
      exists j :: 0 <= j < |keys| && Served(configs, keys[j]) && configs[keys[j]] == Payloads(keys, configs)[i]
    ensures (forall j :: 0 <= j < |keys| ==> Served(configs, keys[j])) ==> |Payloads(keys, configs)| == |keys|
    ensures (forall j :: 0 <= j < |keys| ==> !Served(configs, keys[j])) ==> Payloads(keys, configs) == []
  {
    if |keys| > 0 {
      PayloadsFromKeys(keys[1..], configs);
      var rest := Payloads(keys[1..], configs);
      var head := if Served(configs, keys[0]) then [configs[keys[0]]] else [];
      var r := Payloads(keys, configs);
      assert r == head + rest;
      forall i | 0 <= i < |r|
        ensures r[i] != ""
        ensures exists j :: 0 <= j < |keys| && Served(configs, keys[j]) && configs[keys[j]] == r[i]
      {
        if i < |head| {
          assert r[i] == configs[keys[0]];
          assert 0 <= 0 < |keys| && Served(configs, keys[0]) && configs[keys[0]] == r[i];
        } else {
          assert r[i] == rest[i - |head|];
          var j :| 0 <= j < |keys[1..]| && Served(configs, keys[1..][j]) && configs[keys[1..][j]] == rest[i - |head|];
          assert keys[j + 1] == keys[1..][j];
          assert 0 <= j + 1 < |keys| && Served(configs, keys[j + 1]) && configs[keys[j + 1]] == r[i];
        }
      }
      if forall j :: 0 <= j < |keys| ==> Served(configs, keys[j]) {
        assert forall j :: 0 <= j < |keys[1..]| ==> keys[1..][j] == keys[j + 1];
      }
      if forall j :: 0 <= j < |keys| ==> !Served(configs, keys[j]) {
        assert forall j :: 0 <= j < |keys[1..]| ==> keys[1..][j] == keys[j + 1];
      }
    } else {
      assert Payloads(keys, configs) == [];
    }
  }

  /** Every line followed by "\n", concatenated. */
  function Lines(ls: seq<string>): (out: string)
    ensures |ls| > 0 ==> |out| > 0 && out[|out| - 1] == '\n'
  {
    if |ls| == 0 then "" else ls[0] + "\n" + Lines(ls[1..])
  }

  /** The body before base-64 encoding: the served configurations of the
      selected keys, one per line. */
  function Output(selected: seq<string>, configs: map<string, string>): string {
    Lines(Payloads(selected, configs))
  }

  /** The handler. `shuffled` is the outcome of the random sort: some
      permutation of the listed keys. `encode` is the platform's base-64
      encoder, applied to the assembled output. */
  function Fetch(pathname: string, env: Env, shuffled: seq<string>, encode: string -> string): (resp: Response)
    requires multiset(shuffled) == multiset(env.listed)
    ensures resp.status == 403 <==> !UnderSub(pathname)
    ensures resp.status == 400 <==> UnderSub(pathname) && MalformedToken(Token(pathname))
    ensures resp.status == 404 <==>
      UnderSub(pathname) && !MalformedToken(Token(pathname)) && !KnownUser(env.users, Token(pathname))
    ensures resp.status == 503 <==>
      UnderSub(pathname) && !MalformedToken(Token(pathname)) && KnownUser(env.users, Token(pathname))
      && |env.listed| == 0
    ensures resp.status == 200 <==>
      UnderSub(pathname) && !MalformedToken(Token(pathname)) && KnownUser(env.users, Token(pathname))
      && |env.listed| > 0
    ensures resp.status == 200 ==> resp.body == encode(Output(Select(shuffled), env.configs))
  {
    var token := Token(pathname);
    if !UnderSub(pathname) then Response(403, "Access Denied")
    else if MalformedToken(token) then Response(400, "Invalid Token")
    else if !KnownUser(env.users, token) then Response(404, "Invalid Subscription")
    else if |env.listed| == 0 then Response(503, "No configs available")
    else Response(200, encode(Output(Select(shuffled), env.configs)))
  }

  // ---------------------------------------------------------------------
  // The output loop
  // ---------------------------------------------------------------------

  /** The `for (const key of selected)` loop: append each served
      configuration followed by "\n". */
  method AssembleOutput(selected: seq<string>, configs: map<string, string>) returns (output: string)
    ensures output == Lines(Payloads(selected, configs))
  {
    output := "";
    var i := 0;
    while i < |selected|
      invariant 0 <= i <= |selected|
      invariant output == Lines(Payloads(selected[..i], configs))
    {
      var key := selected[i];
      PayloadsSnoc(selected[..i], key, configs);
      assert selected[..i + 1] == selected[..i] + [key];
      if key in configs && configs[key] != "" {
        LinesAppend(Payloads(selected[..i], configs), [configs[key]]);
        output := output + configs[key] + "\n";
      } else {
        assert Payloads(selected[..i], configs) + [] == Payloads(selected[..i], configs);
      }
      i := i + 1;
    }
    assert selected[..|selected|] == selected;
  }

  lemma {:induction false} PayloadsSnoc(keys: seq<string>, key: string, configs: map<string, string>)
    ensures Payloads(keys + [key], configs)
         == Payloads(keys, configs) + (if Served(configs, key) then [configs[key]] else [])
  {
    if |keys| == 0 {
      assert keys + [key] == [key];
    } else {
      assert (keys + [key])[1..] == keys[1..] + [key];
      PayloadsSnoc(keys[1..], key, configs);
    }
  }

  lemma {:induction false} LinesAppend(a: seq<string>, b: seq<string>)
    ensures Lines(a + b) == Lines(a) + Lines(b)
  {
    if |a| == 0 {
      assert a + b == b;
    } else {
      assert (a + b)[1..] == a[1..] + b;
      LinesAppend(a[1..], b);
    }
  }

  // ---------------------------------------------------------------------
  // Properties of the handler
  // ---------------------------------------------------------------------

  /** Any path outside "/sub/" is refused with 403, whatever the token, the
      stores and the shuffle. */
  lemma DeniedRegardlessOfStores(pathname: string, e1: Env, s1: seq<string>, f1: string -> string,
                                 e2: Env, s2: seq<string>, f2: string -> string)
    requires !UnderSub(pathname)
    requires multiset(s1) == multiset(e1.listed) && multiset(s2) == multiset(e2.listed)
    ensures Fetch(pathname, e1, s1, f1) == Fetch(pathname, e2, s2, f2) == Response(403, "Access Denied")
  {
  }

  /** An empty token or "sub" is refused with 400 before either store is
      consulted: the answer is the same for every pair of stores. */
  lemma MalformedTokenSkipsStores(pathname: string, e1: Env, s1: seq<string>, f1: string -> string,
                                  e2: Env, s2: seq<string>, f2: string -> string)
    requires UnderSub(pathname) && MalformedToken(Token(pathname))
    requires multiset(s1) == multiset(e1.listed) && multiset(s2) == multiset(e2.listed)
    ensures Fetch(pathname, e1, s1, f1) == Fetch(pathname, e2, s2, f2) == Response(400, "Invalid Token")
  {
  }

  /** An unknown user is refused with 404 before the config store is
      consulted: only the user store matters. */
  lemma UnknownUserSkipsConfigs(pathname: string, users: map<string, string>,
                                c1: map<string, string>, l1: seq<string>, s1: seq<string>, f1: string -> string,
                                c2: map<string, string>, l2: seq<string>, s2: seq<string>, f2: string -> string)
    requires UnderSub(pathname) && !MalformedToken(Token(pathname)) && !KnownUser(users, Token(pathname))
    requires multiset(s1) == multiset(l1) && multiset(s2) == multiset(l2)
    ensures Fetch(pathname, Env(users, c1, l1), s1, f1) == Fetch(pathname, Env(users, c2, l2), s2, f2)
         == Response(404, "Invalid Subscription")
  {
  }

  /** For "/sub/<t>" with a separator-free `t`, the token is `t`. */
  lemma {:induction false} TokenOfSubPath(t: string)
    requires '/' !in t
    ensures UnderSub("/sub/" + t)
    ensures Token("/sub/" + t) == t
  {
    var p := "/sub/" + t;
    assert p[..5] == "/sub/";
    SplitPiece(t, '/');
    SplitPrepend("sub", t, '/');
    SplitPrepend("", "sub/" + t, '/');
    assert p == "" + "/" + ("sub/" + t);
    assert "sub/" + t == "sub" + "/" + t;
  }

  /** The served keys are real listed keys: at most fourteen of them, never
      one more often than it is listed, and all of them when there are no
      more than fourteen. */
  lemma SelectionFromListing(listed: seq<string>, shuffled: seq<string>)
    requires multiset(shuffled) == multiset(listed)
    ensures |Select(shuffled)| == (if |listed| < MaxConfigs then |listed| else MaxConfigs)
    ensures forall k :: k in Select(shuffled) ==> k in listed
    ensures multiset(Select(shuffled)) <= multiset(listed)
    ensures |listed| <= MaxConfigs ==> multiset(Select(shuffled)) == multiset(listed)
  {
    assert |shuffled| == |listed| by {
      assert |multiset(shuffled)| == |multiset(listed)|;
    }
    forall k | k in Select(shuffled) ensures k in listed {
      assert k in multiset(Select(shuffled));
    }
  }

  /** A successful body encodes at most fourteen lines, each the non-empty
      configuration stored under some listed key. */
  lemma SuccessBody(pathname: string, env: Env, shuffled: seq<string>, encode: string -> string)
    requires multiset(shuffled) == multiset(env.listed)
    requires Fetch(pathname, env, shuffled, encode).status == 200
    ensures var ls := Payloads(Select(shuffled), env.configs);
      && Fetch(pathname, env, shuffled, encode).body == encode(Lines(ls))
      && |ls| <= MaxConfigs
      && forall i :: 0 <= i < |ls| ==> ls[i] != "" && exists k :: k in env.listed && Served(env.configs, k) && env.configs[k] == ls[i]
  {
    var sel := Select(shuffled);
    var ls := Payloads(sel, env.configs);
    SelectionFromListing(env.listed, shuffled);
    PayloadsFromKeys(sel, env.configs);
    forall i | 0 <= i < |ls|
      ensures exists k :: k in env.listed && Served(env.configs, k) && env.configs[k] == ls[i]
    {
      var j :| 0 <= j < |sel| && Served(env.configs, sel[j]) && env.configs[sel[j]] == ls[i];
      assert sel[j] in sel;
    }
  }

  /** Reading the decoded body line by line gives back the served
      configurations, as long as none of them contains a newline (the final
      "\n" leaves one empty piece at the end). */
  lemma {:induction false} LinesRoundTrip(ls: seq<string>)
    requires forall i :: 0 <= i < |ls| ==> '\n' !in ls[i]
    ensures Split(Lines(ls), '\n') == ls + [""]
  {
    LinesAsJoin(ls);
    SplitJoin(ls + [""], '\n');
  }

  lemma {:induction false} LinesAsJoin(ls: seq<string>)
    ensures Lines(ls) == Join(ls + [""], '\n')
  {
    if |ls| > 0 {
      LinesAsJoin(ls[1..]);
      assert (ls + [""])[1..] == ls[1..] + [""];
    }
  }
}
