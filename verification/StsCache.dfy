/**
 pkg/kubernetes/provider_token_exchange.go and pkg/tokenexchange/config.go: the memo for the
 token exchange configuration, and the memo for its HTTP client inside it.
 */
module StsCache {
  import opened Common
  import opened Strings

  const NUL := '\0'

  /** The getters of api.BaseConfig that getOrBuildStsConfig calls. */
  datatype BaseConfig = BaseConfig(
    strategy: string,
    clientId: string,
    clientSecret: string,
    audience: string,
    subjectTokenType: string,
    requestedTokenType: string,
    scopes: seq<string>,
    authStyle: string,
    clientCertFile: string,
    clientKeyFile: string,
    federatedTokenFile: string,
    caFile: string,
    tlsMinVersion: string,
    tlsCipherSuites: seq<string>,
    requireTLS: bool)

  datatype StsConfig = StsConfig(
    tokenURL: string,
    clientId: string,
    clientSecret: string,
    audience: string,
    subjectTokenType: string,
    requestedTokenType: string,
    scopes: seq<string>,
    authStyle: string,
    clientCertFile: string,
    clientKeyFile: string,
    federatedTokenFile: string,
    caFile: string,
    tlsMinVersion: string,
    tlsCipherSuites: seq<string>,
    requireTLS: bool)

  datatype Key = Key(
    tokenURL: string,
    strategy: string,
    clientId: string,
    clientSecret: string,
    audience: string,
    subjectTokenType: string,
    requestedTokenType: string,
    scopes: string,
    authStyle: string,
    clientCertFile: string,
    clientKeyFile: string,
    federatedTokenFile: string,
    caFile: string,
    tlsMinVersion: string,
    tlsCipherSuites: string,
    requireTLS: bool)

  function KeyOf(tokenURL: string, b: BaseConfig): Key {
    Key(tokenURL, b.strategy, b.clientId, b.clientSecret, b.audience, b.subjectTokenType, b.requestedTokenType,
        Join(b.scopes, NUL), b.authStyle, b.clientCertFile, b.clientKeyFile, b.federatedTokenFile, b.caFile,
        b.tlsMinVersion, Join(b.tlsCipherSuites, NUL), b.requireTLS)
  }

  function Build(tokenURL: string, b: BaseConfig): StsConfig {
    StsConfig(tokenURL, b.clientId, b.clientSecret, b.audience, b.subjectTokenType, b.requestedTokenType, b.scopes,
              if b.authStyle == "" then "params" else b.authStyle, b.clientCertFile, b.clientKeyFile,
              b.federatedTokenFile, b.caFile, b.tlsMinVersion, b.tlsCipherSuites, b.requireTLS)
  }

  predicate Valid(c: StsConfig) {
    if c.authStyle == "" || c.authStyle == "params" || c.authStyle == "header" then true
    else if c.authStyle == "assertion" then c.clientCertFile != "" && c.clientKeyFile != ""
    else if c.authStyle == "federated" then c.federatedTokenFile != ""
    else false
  }

  /** The uncached function: what a fresh build and Validate give. */
  function Uncached(tokenURL: string, b: BaseConfig): Option<StsConfig> {
    if b.strategy == "" || tokenURL == "" || !Valid(Build(tokenURL, b)) then None
    else Some(Build(tokenURL, b))
  }

  /** Which configurations give a token exchange configuration, and what each of its fields is. */
  lemma UncachedMeaning(url: string, b: BaseConfig)
    ensures var c := Uncached(url, b);
            && (c.Some? <==>
                  && b.strategy != "" && url != "" && b.authStyle in {"", "params", "header", "assertion", "federated"}
                  && (b.authStyle == "assertion" ==> b.clientCertFile != "" && b.clientKeyFile != "")
                  && (b.authStyle == "federated" ==> b.federatedTokenFile != ""))
            && (c.Some? ==>
                  && c.value.tokenURL == url
                  && c.value.clientId == b.clientId && c.value.clientSecret == b.clientSecret && c.value.audience == b.audience
                  && c.value.subjectTokenType == b.subjectTokenType && c.value.requestedTokenType == b.requestedTokenType
                  && c.value.scopes == b.scopes
                  && (b.authStyle == "" ==> c.value.authStyle == "params") && (b.authStyle != "" ==> c.value.authStyle == b.authStyle)
                  && c.value.clientCertFile == b.clientCertFile && c.value.clientKeyFile == b.clientKeyFile
                  && c.value.federatedTokenFile == b.federatedTokenFile
                  && c.value.caFile == b.caFile && c.value.tlsMinVersion == b.tlsMinVersion
                  && c.value.tlsCipherSuites == b.tlsCipherSuites && c.value.requireTLS == b.requireTLS)
  {
  }

  // ---------------------------------------------------------------- what the NUL join tells apart

  /** A list that the joined string determines. */
  predicate Clean(parts: seq<string>) {
    (forall p :: p in parts ==> '\0' !in p) && parts != [""]
  }

  /** The clean list with the same joined string. */
  function Canonical(parts: seq<string>): seq<string> {
    if Join(parts, NUL) == "" then [] else Split(Join(parts, NUL), NUL)
  }

  lemma {:induction false} EmptyJoin(parts: seq<string>)
    ensures Join(parts, NUL) == "" <==> parts == [] || parts == [""]
  {
    if |parts| == 1 {
      assert parts == [parts[0]];
    }
  }

  /** Every list shares its key with exactly one clean list, and that is the list itself just when it is clean. */
  lemma JoinDeterminesCleanLists(parts: seq<string>)
    ensures Clean(Canonical(parts)) && Join(Canonical(parts), NUL) == Join(parts, NUL)
    ensures Canonical(parts) == parts <==> Clean(parts)
  {
    var s := Join(parts, NUL);
    EmptyJoin(parts);
    JoinSplit(s, NUL);
    if s != "" {
      var c := Split(s, NUL);
      assert c == [""] ==> Join(c, NUL) == "";
      if Clean(parts) {
        SplitJoin(parts, NUL);
      }
    } else if parts == [""] {
      assert Canonical(parts) != parts;
    }
  }

  lemma CleanListsDiffer(xs: seq<string>, ys: seq<string>)
    requires Clean(xs) && Clean(ys) && Join(xs, NUL) == Join(ys, NUL)
    ensures xs == ys
  {
    JoinDeterminesCleanLists(xs);
    JoinDeterminesCleanLists(ys);
  }

  /** A list whose joined string no other list has. */
  predicate Rigid(parts: seq<string>) {
    |parts| == 1 && parts[0] != "" && '\0' !in parts[0]
  }

  /** Another list with the same joined string. */
  function Twin(parts: seq<string>): (twin: seq<string>)
    requires !Rigid(parts)
    ensures twin != parts && Join(twin, NUL) == Join(parts, NUL)
  {
    if parts == [] then [""]
    else if |parts| > 1 then [Join(parts, NUL)]
    else if parts[0] == "" then []
    else
      JoinSplit(parts[0], NUL);
      Split(parts[0], NUL)
  }

  /** The join alone identifies a list exactly when that is one non-empty string without a NUL in it. */
  lemma RigidExactlyWhen(parts: seq<string>)
    ensures (forall xs :: Join(xs, NUL) == Join(parts, NUL) ==> xs == parts) <==> Rigid(parts)
  {
    if Rigid(parts) {
      forall xs | Join(xs, NUL) == Join(parts, NUL) ensures xs == parts {
        assert |xs| > 1 ==> NUL in Join(xs, NUL);
        if |xs| == 1 {
          assert xs[0] == parts[0];
        }
      }
    } else {
      assert Join(Twin(parts), NUL) == Join(parts, NUL);
    }
  }

  predicate CleanConfig(b: BaseConfig) {
    Clean(b.scopes) && Clean(b.tlsCipherSuites)
  }

  lemma KeyDeterminesBuild(url: string, b: BaseConfig, url': string, b': BaseConfig)
    requires KeyOf(url, b) == KeyOf(url', b') && CleanConfig(b) && CleanConfig(b')
    ensures url == url' && b == b'
  {
    CleanListsDiffer(b.scopes, b'.scopes);
    CleanListsDiffer(b.tlsCipherSuites, b'.tlsCipherSuites);
  }

  // ---------------------------------------------------------------- the configuration memo

  /** `key` means something only while `config` is there. */
  datatype Memo = Memo(config: Option<StsConfig>, key: Option<Key>)

  predicate Hit(m: Memo, url: string, b: BaseConfig) {
    m.config.Some? && m.key == Some(KeyOf(url, b))
  }

  /** One call: the memo it leaves and what it returns. */
  function GetOrBuild(m: Memo, url: string, b: BaseConfig): (Memo, Option<StsConfig>) {
    if b.strategy == "" || url == "" then (m, None)
    else if Hit(m, url, b) then (m, m.config)
    else if !Valid(Build(url, b)) then (m, None)
    else (Memo(Some(Build(url, b)), Some(KeyOf(url, b))), Some(Build(url, b)))
  }

  datatype Call = Call(url: string, base: BaseConfig)

  function After(calls: seq<Call>): Memo {
    if calls == [] then Memo(None, None)
    else
      var last := calls[|calls| - 1];
      GetOrBuild(After(calls[..|calls| - 1]), last.url, last.base).0
  }

  /** What the memo holds was built by an earlier call, valid, and keyed by that call. */
  ghost predicate BuiltBy(m: Memo, calls: seq<Call>, j: nat) {
    j < |calls| && m == Memo(Uncached(calls[j].url, calls[j].base), Some(KeyOf(calls[j].url, calls[j].base))) && m.config.Some?
  }

  lemma {:induction false} MemoWasBuilt(calls: seq<Call>) returns (j: nat)
    ensures After(calls) == Memo(None, None) || BuiltBy(After(calls), calls, j)
  {
    j := 0;
    if calls != [] {
      var n := |calls| - 1;
      var i := MemoWasBuilt(calls[..n]);
      var m, last := After(calls[..n]), calls[n];
      if last.base.strategy == "" || last.url == "" || Hit(m, last.url, last.base) || !Valid(Build(last.url, last.base)) {
        j := i;
      } else {
        j := n;
      }
    }
  }

  /**
   One call after any history: a miss is always right, and a hit is right exactly when the call that
   built what the memo holds had the same lists.
   */
  lemma AnswerIsFreshExactlyWhen(calls: seq<Call>, url: string, b: BaseConfig) returns (j: nat)
    ensures Hit(After(calls), url, b) ==> BuiltBy(After(calls), calls, j)
    ensures GetOrBuild(After(calls), url, b).1 == Uncached(url, b) <==>
            !Hit(After(calls), url, b) ||
            (calls[j].base.scopes == b.scopes && calls[j].base.tlsCipherSuites == b.tlsCipherSuites)
  {
    j := MemoWasBuilt(calls);
  }

  ghost predicate AlwaysFresh(url: string, b: BaseConfig) {
    forall calls :: GetOrBuild(After(calls), url, b).1 == Uncached(url, b)
  }

  /** One earlier call is enough for a wrong answer. */
  lemma TwinIsMistaken(url: string, b: BaseConfig, twin: BaseConfig)
    requires Uncached(url, b).Some? && KeyOf(url, twin) == KeyOf(url, b)
    ensures GetOrBuild(After([Call(url, twin)]), url, b).1 == Some(Build(url, twin))
  {
    var calls := [Call(url, twin)];
    assert calls[..0] == [] && After(calls[..0]) == Memo(None, None);
  }

  /**
   For a configuration that does not validate the memo is never wrong. For one that does, it is right after
   every history exactly when both its lists are rigid.
   */
  lemma AlwaysFreshExactlyWhen(url: string, b: BaseConfig)
    ensures AlwaysFresh(url, b) <==> Uncached(url, b).None? || (Rigid(b.scopes) && Rigid(b.tlsCipherSuites))
  {
    if Uncached(url, b).None? || (Rigid(b.scopes) && Rigid(b.tlsCipherSuites)) {
      forall calls ensures GetOrBuild(After(calls), url, b).1 == Uncached(url, b) {
        var j := AnswerIsFreshExactlyWhen(calls, url, b);
        RigidExactlyWhen(b.scopes);
        RigidExactlyWhen(b.tlsCipherSuites);
      }
    } else {
      var twin := if Rigid(b.scopes) then b.(tlsCipherSuites := Twin(b.tlsCipherSuites)) else b.(scopes := Twin(b.scopes));
      TwinIsMistaken(url, b, twin);
      assert GetOrBuild(After([Call(url, twin)]), url, b).1 != Uncached(url, b);
    }
  }

  /** The shortest wrong answer: no scopes, after a call with one empty scope. */
  lemma NoScopesAreMistaken(url: string, b: BaseConfig)
    requires Uncached(url, b).Some? && b.scopes == []
    ensures GetOrBuild(After([Call(url, b.(scopes := [""]))]), url, b).1 == Some(Build(url, b).(scopes := [""]))
  {
    TwinIsMistaken(url, b, b.(scopes := [""]));
  }

  predicate AllClean(calls: seq<Call>) {
    forall i :: 0 <= i < |calls| ==> CleanConfig(calls[i].base)
  }

  /** Whatever was asked before, a call with clean lists returns what a fresh build would. */
  lemma MemoRefinesUncached(calls: seq<Call>, url: string, b: BaseConfig)
    requires AllClean(calls) && CleanConfig(b)
    ensures GetOrBuild(After(calls), url, b).1 == Uncached(url, b)
  {
    var m := After(calls);
    var j := MemoWasBuilt(calls);
    if Hit(m, url, b) && b.strategy != "" && url != "" {
      KeyDeterminesBuild(url, b, calls[j].url, calls[j].base);
    }
  }

  ghost predicate FreshAfterCleanCalls(url: string, b: BaseConfig) {
    forall calls :: AllClean(calls) ==> GetOrBuild(After(calls), url, b).1 == Uncached(url, b)
  }

  /**
   When only clean lists are ever asked for, the condition is weaker: for a configuration that
   validates, the memo is right after every such history exactly when its own lists are clean.
   */
  lemma FreshExactlyWhenClean(url: string, b: BaseConfig)
    requires Uncached(url, b).Some?
    ensures FreshAfterCleanCalls(url, b) <==> CleanConfig(b)
  {
    if CleanConfig(b) {
      forall calls | AllClean(calls) ensures GetOrBuild(After(calls), url, b).1 == Uncached(url, b) {
        MemoRefinesUncached(calls, url, b);
      }
    } else {
      var twin := b.(scopes := Canonical(b.scopes), tlsCipherSuites := Canonical(b.tlsCipherSuites));
      JoinDeterminesCleanLists(b.scopes);
      JoinDeterminesCleanLists(b.tlsCipherSuites);
      TwinIsMistaken(url, b, twin);
      assert AllClean([Call(url, twin)]) && Build(url, twin) != Build(url, b);
    }
  }

  // ---------------------------------------------------------------- the HTTP client memo

  /** What a call can find on the outside: the CA files, and whether tlsutil accepts a version and ciphers. */
  datatype Env = Env(caFiles: map<string, string>, badPem: set<string>, tlsOk: set<(string, seq<string>)>)

  datatype Wanted = Wanted(caFile: string, minVersion: string, suites: seq<string>)

  datatype Client = Client(wanted: Wanted, pem: Option<string>)

  datatype Failure = NoCaFile | BadCa | BadTls

  function BuildClient(env: Env, w: Wanted): Result<Client, Failure> {
    if w.caFile != "" && w.caFile !in env.caFiles then Err(NoCaFile)
    else if w.caFile != "" && env.caFiles[w.caFile] in env.badPem then Err(BadCa)
    else if (w.minVersion, w.suites) !in env.tlsOk then Err(BadTls)
    else Ok(Client(w, if w.caFile == "" then None else Some(env.caFiles[w.caFile])))
  }

  /** A client is built exactly when its CA file, if it names one, can be read and parsed and the TLS settings are accepted. */
  lemma BuildClientMeaning(env: Env, w: Wanted)
    ensures var r := BuildClient(env, w);
            && (r == Err(NoCaFile) <==> w.caFile != "" && w.caFile !in env.caFiles)
            && (r == Err(BadCa) <==> w.caFile != "" && w.caFile in env.caFiles && env.caFiles[w.caFile] in env.badPem)
            && (r == Err(BadTls) <==>
                  && (w.caFile == "" || (w.caFile in env.caFiles && env.caFiles[w.caFile] !in env.badPem))
                  && (w.minVersion, w.suites) !in env.tlsOk)
            && (r.Ok? ==> r.value.wanted == w && (w.caFile == "" ==> r.value.pem == None)
                          && (w.caFile != "" ==> w.caFile in env.caFiles && r.value.pem == Some(env.caFiles[w.caFile])))
  {
  }

  datatype ClientMemo = NoClient | Kept(client: Client, builtFor: Wanted)

  function HttpClient(m: ClientMemo, env: Env, w: Wanted): (ClientMemo, Result<Client, Failure>) {
    if m.Kept? && m.builtFor == w then (m, Ok(m.client))
    else
      match BuildClient(env, w)
      case Err(e) => (m, Err(e))
      case Ok(c) => (Kept(c, w), Ok(c))
  }

  datatype ClientCall = ClientCall(env: Env, wanted: Wanted)

  function AfterClientCalls(calls: seq<ClientCall>): ClientMemo {
    if calls == [] then NoClient
    else
      var last := calls[|calls| - 1];
      HttpClient(AfterClientCalls(calls[..|calls| - 1]), last.env, last.wanted).0
  }

  lemma {:induction false} ClientWasBuilt(calls: seq<ClientCall>) returns (j: nat)
    ensures AfterClientCalls(calls).Kept? ==>
              && j < |calls| && AfterClientCalls(calls).builtFor == calls[j].wanted
              && BuildClient(calls[j].env, calls[j].wanted) == Ok(AfterClientCalls(calls).client)
  {
    j := 0;
    if calls != [] {
      var n := |calls| - 1;
      j := ClientWasBuilt(calls[..n]);
      var m := AfterClientCalls(calls[..n]);
      if !(m.Kept? && m.builtFor == calls[n].wanted) && BuildClient(calls[n].env, calls[n].wanted).Ok? {
        j := n;
      }
    }
  }

  /**
   Whatever CA paths, TLS settings and failures came before, the client returned is one built
   for the settings of this call; a failing call leaves the memo alone; and as long as the
   files stay as they are the memo answers as an uncached build does.
   */
  lemma {:induction false} ClientFitsTheCall(calls: seq<ClientCall>, env: Env, w: Wanted)
    ensures var m := AfterClientCalls(calls);
            var (next, r) := HttpClient(m, env, w);
            && (r.Ok? ==> r.value.wanted == w && next == Kept(r.value, w))
            && (r.Err? ==> next == m && BuildClient(env, w) == r)
            && ((forall i :: 0 <= i < |calls| ==> calls[i].env == env) ==> r == BuildClient(env, w))
  {
    var j := ClientWasBuilt(calls);
  }

  /** Nothing that a client for these settings is built from has changed since: the file, and what is accepted. */
  predicate SameOutside(before: Env, now: Env, w: Wanted) {
    && (w.minVersion, w.suites) in now.tlsOk
    && (w.caFile != "" ==>
          && w.caFile in before.caFiles && w.caFile in now.caFiles
          && now.caFiles[w.caFile] == before.caFiles[w.caFile] && now.caFiles[w.caFile] !in now.badPem)
  }

  /**
   The memo answers as an uncached build would exactly on a miss, or when the outside is still
   what it was at the call that built the client: a CA file replaced under the same path, or
   taken away, goes unnoticed.
   */
  lemma {:induction false} FreshClientExactlyWhen(calls: seq<ClientCall>, env: Env, w: Wanted) returns (j: nat)
    ensures var m := AfterClientCalls(calls);
            if m.Kept? && m.builtFor == w then
              && j < |calls| && calls[j].wanted == w && BuildClient(calls[j].env, w) == Ok(m.client)
              && (HttpClient(m, env, w).1 == BuildClient(env, w) <==> SameOutside(calls[j].env, env, w))
            else HttpClient(m, env, w).1 == BuildClient(env, w)
  {
    j := ClientWasBuilt(calls);
  }

  /** Such a file exists for every client with a CA: replace what is in it. */
  lemma {:induction false} SamePathIsNotReread(env: Env, pem: string, w: Wanted)
    requires w.caFile != "" && BuildClient(env, w).Ok? && env.caFiles[w.caFile] != pem
    ensures var rotated := env.(caFiles := env.caFiles[w.caFile := pem]);
            && HttpClient(AfterClientCalls([ClientCall(env, w)]), rotated, w).1 == BuildClient(env, w)
            && BuildClient(rotated, w) != BuildClient(env, w)
  {
    var calls := [ClientCall(env, w)];
    assert calls[..0] == [] && AfterClientCalls(calls[..0]) == NoClient;
  }

  // ---------------------------------------------------------------- the objects that hold the memos

  class ClientObject {
    const spec: Client
    var idleClosed: nat

    constructor (spec: Client)
      ensures this.spec == spec && idleClosed == 0
    {
      this.spec := spec;
      idleClosed := 0;
    }

    method CloseIdleConnections()
      modifies this
      ensures idleClosed == old(idleClosed) + 1
    {
      idleClosed := idleClosed + 1;
    }
  }

  /** The exported fields of the configuration are the caller's to change between calls. */
  class TargetTokenExchangeConfig {
    var config: StsConfig
    var client: ClientObject?
    var clientCAFile: string
    var clientTLSMinVersion: string
    var clientTLSCipherSuites: seq<string>

    function Memo(): ClientMemo
      reads this
    {
      if client == null then NoClient
      else Kept(client.spec, Wanted(clientCAFile, clientTLSMinVersion, clientTLSCipherSuites))
    }

    function Wants(): Wanted
      reads this
    {
      Wanted(config.caFile, config.tlsMinVersion, config.tlsCipherSuites)
    }

    constructor (config: StsConfig)
      ensures this.config == config && Memo() == NoClient && client == null
    {
      this.config := config;
      client, clientCAFile, clientTLSMinVersion, clientTLSCipherSuites := null, "", "", [];
    }

    /** The client of a hit is the very object of the last call; a rebuilt one replaces it, and its idle connections go. */
    method HTTPClient(env: Env) returns (r: Result<ClientObject, Failure>)
      modifies this, client
      ensures config == old(config)
      ensures Memo() == HttpClient(old(Memo()), env, Wants()).0
      ensures match r
              case Ok(c) => HttpClient(old(Memo()), env, Wants()).1 == Ok(c.spec) && client == c
              case Err(e) => HttpClient(old(Memo()), env, Wants()).1 == Err(e) && client == old(client)
      ensures old(Memo()).Kept? && old(Memo()).builtFor == Wants() ==> client == old(client)
      ensures client != old(client) ==> fresh(client) && (old(client) != null ==> old(client).idleClosed == old(client.idleClosed) + 1)
      ensures client == old(client) != null ==> client.idleClosed == old(client.idleClosed)
    {
      if client != null && clientCAFile == config.caFile && clientTLSMinVersion == config.tlsMinVersion
         && clientTLSCipherSuites == config.tlsCipherSuites {
        return Ok(client);
      }
      var built := BuildClient(env, Wants());
      if built.Err? {
        return Err(built.error);
      }
      if client != null {
        client.CloseIdleConnections();
      }
      var c := new ClientObject(built.value);
      client := c;
      clientCAFile, clientTLSMinVersion, clientTLSCipherSuites := config.caFile, config.tlsMinVersion, config.tlsCipherSuites;
      return Ok(c);
    }

    method CloseIdleConnections()
      modifies client
      ensures client != null ==> client.idleClosed == old(client.idleClosed) + 1
    {
      if client != null {
        client.CloseIdleConnections();
      }
    }
  }

  class TokenExchangingProvider {
    var stsConfig: TargetTokenExchangeConfig?
    var stsConfigKey: Option<Key>

    function Abs(): Memo
      reads this, stsConfig
    {
      if stsConfig == null then Memo.Memo(None, stsConfigKey) else Memo.Memo(Some(stsConfig.config), stsConfigKey)
    }

    constructor ()
      ensures Abs() == Memo.Memo(None, None)
    {
      stsConfig, stsConfigKey := null, None;
    }

    /** A hit returns the object it kept, with its HTTP client; a failed build keeps the old one in place. */
    method GetOrBuildStsConfig(tokenURL: string, base: BaseConfig) returns (r: TargetTokenExchangeConfig?)
      modifies this, if stsConfig == null then {} else {stsConfig.client}
      ensures Abs() == GetOrBuild(old(Abs()), tokenURL, base).0
      ensures GetOrBuild(old(Abs()), tokenURL, base).1 == if r == null then None else Some(r.config)
      ensures r != null ==> r == stsConfig
      ensures stsConfig == old(stsConfig) || (fresh(stsConfig) && stsConfig.client == null)
      ensures stsConfig != old(stsConfig) && old(stsConfig) != null && old(stsConfig.client) != null ==>
                old(stsConfig.client).idleClosed == old(stsConfig.client.idleClosed) + 1
    {
      if base.strategy == "" || tokenURL == "" { return null; }
      var key := KeyOf(tokenURL, base);
      if stsConfig != null && stsConfigKey == Some(key) { return stsConfig; }
      var built := Build(tokenURL, base);
      if !Valid(built) { return null; }
      if stsConfig != null {
        stsConfig.CloseIdleConnections();
      }
      var cfg := new TargetTokenExchangeConfig(built);
      stsConfig, stsConfigKey := cfg, Some(key);
      return cfg;
    }
  }
}
