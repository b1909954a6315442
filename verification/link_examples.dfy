/**
 * The link shapes of the five URL grammars, and the five links the
 * framework's own test expects for `Main:getUrlSecurityParams` with
 * parameters `p1 => 1, p2 => 2, p3 => 3` (tests/MainTest.php).
 */
module LinkExamples {
  import opened Wrappers
  import opened PhpString
  import opened PhpArray
  import opened PhpValue
  import opened ParamCodec
  import opened Config
  import opened View
  import opened LinkCache
  import UrlEncode

  /** The test application's `url` section: grammar `t`, separator `dot`, no extension, front controller `index.php`. */
  function TestConfig(t: int, dot: string): UrlConfig {
    UrlConfig(t, dot, "", "index.php", false, "", [])
  }

  /** The test application, running, with no aliases and an empty base link (which normalises to "/"). */
  function TestEnv(t: int, dot: string): Env {
    Env(App("test", TestConfig(t, dot), []), map[])
  }

  /** The first link a fresh view builds for `spec` and `params`, unencrypted. */
  function FirstUrl(env: Env, spec: string, params: Params, cipher: string -> string): Result<string, LinkError> {
    Url(env, ViewState(None, NoCaches()), Some(spec), params, false, cipher).uri
  }

  /**
   * A fresh view's link to `controller:action` with non-empty array
   * parameters: base "/", the grammar's controller prefix, controller, `dot`,
   * action, then `"?"` (type 2) or `dot` and the grammar's parameter text.
   */
  lemma TestLink(t: int, dot: string, controller: string, action: string, p: Arr<string>, cipher: string -> string)
    requires 1 <= t <= 5 && Truthy(controller) && FreeOf(controller, ":") && FreeOf(action, ":") && p != []
    ensures var cfg := TestConfig(t, dot);
            FirstUrl(TestEnv(t, dot), controller + ":" + action, ArrayParams(p), cipher)
              == Ok("/" + SegmentPrefix(cfg, controller) + controller + dot + action
                    + (if t == 2 then "?" else dot) + ParamsBody(p, cfg))
  {
    var cfg := TestConfig(t, dot);
    var spec := controller + ":" + action;
    FirstUrlBuilds(t, dot, spec, ArrayParams(p), cipher);
    BuildUriShape(t, dot, controller, action, p, cipher);
    Regroup("/", SegmentPrefix(cfg, controller), controller, dot, action, if t == 2 then "?" else dot, ParamsBody(p, cfg));
  }

  /** A fresh view of the test application puts "/" before what `BuildUri` makes of its `url` section. */
  lemma FirstUrlBuilds(t: int, dot: string, spec: string, params: Params, cipher: string -> string)
    ensures FirstUrl(TestEnv(t, dot), spec, params, cipher)
              == match BuildUri(TestConfig(t, dot), [], spec, params, false, cipher)
                 case Ok(u) => Ok("/" + u)
                 case Err(e) => Err(e)
  {
    var env := TestEnv(t, dot);
    assert NormalizeBase("") == "/";
    var c1 := NoCaches().(urlLinkBase := Some("/"));
    assert Coherent(c1);
    MakeUriCoherent(env, c1, "test", false, spec, params, false, cipher);
    assert AliasTable([]) == [];
  }

  /** With non-empty array parameters, the controller part is followed by "?" (type 2) or `dot` and the parameter text. */
  lemma BuildUriShape(t: int, dot: string, controller: string, action: string, p: Arr<string>, cipher: string -> string)
    requires 1 <= t <= 5 && Truthy(controller) && FreeOf(controller, ":") && FreeOf(action, ":") && p != []
    ensures var cfg := TestConfig(t, dot);
            BuildUri(cfg, [], controller + ":" + action, ArrayParams(p), false, cipher)
              == Ok(SegmentPrefix(cfg, controller) + controller + dot + action + ((if t == 2 then "?" else dot) + ParamsBody(p, cfg)))
  {
    var cfg := TestConfig(t, dot);
    ControllerUriShape(cfg, [], controller, action);
    var u := SegmentPrefix(cfg, controller) + controller + dot + action;
    assert u != "" by {
      assert |u| >= |controller| > 0;
    }
    EncryptAfterBuild(p, cfg, cipher, true);
    var q := (if t == 2 then "?" else dot) + ParamsBody(p, cfg);
    assert ParamsPart(ArrayParams(p), cfg, false, cipher, u) == Ok(q);
    assert Assemble(cfg, u, q) == u + q;
  }

  lemma Regroup(x: string, p: string, c: string, d: string, a: string, s: string, b: string)
    ensures x + (p + c + d + a + (s + b)) == x + p + c + d + a + s + b
  {
  }

  /** The three parameters of the test: `p1 => 1, p2 => 2, p3 => 3`. */
  function TestParams(): Arr<string> {
    [(Str("p1"), "1"), (Str("p2"), "2"), (Str("p3"), "3")]
  }

  /** Types 1 and 5 write the values alone, separated by `dot`. */
  lemma PositionalThree(a: Arr<string>, dot: string)
    requires |a| == 3
    ensures PositionalSegment(a, dot) == a[0].1 + dot + a[1].1 + dot + a[2].1
  {
    var vs := Values(a);
    assert Join(vs[2..], dot) == a[2].1;
    assert Join(vs[1..], dot) == a[1].1 + dot + a[2].1;
    assert Join(vs, dot) == a[0].1 + dot + (a[1].1 + dot + a[2].1);
  }

  /** Types 3 and 4 write key and value in turn, separated by `dot`, when the last value does not end in `dot`. */
  lemma KeyedThree(a: Arr<string>, dot: string)
    requires |a| == 3 && a[2].1 != "" && a[2].1[|a[2].1| - 1] !in dot
    ensures KeyedSegment(a, dot)
              == KeyString(a[0].0) + dot + a[0].1 + dot + KeyString(a[1].0) + dot + a[1].1 + dot + KeyString(a[2].0) + dot + a[2].1
  {
    var k0, k1, k2 := KeyString(a[0].0), KeyString(a[1].0), KeyString(a[2].0);
    var x := k0 + dot + a[0].1 + dot + k1 + dot + a[1].1 + dot + k2 + dot + a[2].1;
    assert a[1..][1..][1..] == [];
    var b2 := k2 + dot + a[2].1 + dot + "";
    var b1 := k1 + dot + a[1].1 + dot + b2;
    assert KeyedBody(a[2..], dot) == b2;
    assert KeyedBody(a[1..], dot) == b1;
    assert KeyedBody(a, dot) == k0 + dot + a[0].1 + dot + b1;
    assert KeyedBody(a, dot) == x + dot;
    RTrimSuffix(x, dot, dot);
  }

  /** Type 2 writes `key=value` pairs joined by '&', each unchanged by URL encoding when made of unreserved characters. */
  lemma QueryThree(a: Arr<string>)
    requires |a| == 3
    requires forall i, j :: 0 <= i < 3 && 0 <= j < |KeyString(a[i].0)| ==> UrlEncode.Unreserved(KeyString(a[i].0)[j])
    requires forall i, j :: 0 <= i < 3 && 0 <= j < |a[i].1| ==> UrlEncode.Unreserved(a[i].1[j])
    ensures UrlEncode.BuildQuery(a)
              == KeyString(a[0].0) + "=" + a[0].1 + "&" + KeyString(a[1].0) + "=" + a[1].1 + "&" + KeyString(a[2].0) + "=" + a[2].1
  {
    PlainPiece(a[0]);
    PlainPiece(a[1]);
    PlainPiece(a[2]);
    var ps := UrlEncode.QueryPieces(a);
    assert Join(ps[2..], "&") == ps[2];
    assert Join(ps[1..], "&") == ps[1] + "&" + ps[2];
    assert Join(ps, "&") == ps[0] + "&" + (ps[1] + "&" + ps[2]);
    RegroupPairs(KeyString(a[0].0), a[0].1, KeyString(a[1].0), a[1].1, KeyString(a[2].0), a[2].1, "=", "&");
  }

  lemma PlainPiece(e: (Key, string))
    requires forall j :: 0 <= j < |KeyString(e.0)| ==> UrlEncode.Unreserved(KeyString(e.0)[j])
    requires forall j :: 0 <= j < |e.1| ==> UrlEncode.Unreserved(e.1[j])
    ensures UrlEncode.QueryPiece(e) == KeyString(e.0) + "=" + e.1
  {
    UrlEncode.EncodeUnreserved(KeyString(e.0));
    UrlEncode.EncodeUnreserved(e.1);
  }

  lemma RegroupPairs(k0: string, v0: string, k1: string, v1: string, k2: string, v2: string, eq: string, amp: string)
    ensures k0 + eq + v0 + amp + (k1 + eq + v1 + amp + (k2 + eq + v2))
              == k0 + eq + v0 + amp + k1 + eq + v1 + amp + k2 + eq + v2
  {
  }

  /** Type 1: `/?/Main/getUrlSecurityParams/1/2/3`. */
  lemma MakeLinkTypeOne(cipher: string -> string)
    ensures var dot, ext := "/", "";
            FirstUrl(TestEnv(1, dot), "Main" + ":" + "getUrlSecurityParams", ArrayParams(TestParams()), cipher)
              == Ok("/?/Main" + dot + "getUrlSecurityParams" + dot + "1" + dot + "2" + dot + "3" + ext)
  {
    var action := "getUrlSecurityParams";
    ActionFree();
    TestLink(1, "/", "Main", action, TestParams(), cipher);
    assert SegmentPrefix(TestConfig(1, "/"), "Main") == "?" + "/";
    PositionalThree(TestParams(), "/");
    QueryHead();
    RegroupPositional("/", "?" + "/", "Main", "/", action, "1", "2", "3", "/?/Main", "");
  }

  /** Type 2: `/index.php/Main/getUrlSecurityParams?p1=1&p2=2&p3=3`. */
  lemma MakeLinkTypeTwo(cipher: string -> string)
    ensures var dot, ext := "/", "";
            FirstUrl(TestEnv(2, dot), "Main" + ":" + "getUrlSecurityParams", ArrayParams(TestParams()), cipher)
              == Ok("/index.php/Main" + dot + "getUrlSecurityParams" + ext + "?p1=1&p2=2&p3=3")
  {
    var action := "getUrlSecurityParams";
    ActionFree();
    TestLink(2, "/", "Main", action, TestParams(), cipher);
    assert SegmentPrefix(TestConfig(2, "/"), "Main") == "index.php" + "/";
    TestQuery();
    IndexHead();
    QueryTail();
    RegroupQuery("/", "index.php" + "/", "Main", "/", action, "?",
      "p1" + "=" + "1" + "&" + "p2" + "=" + "2" + "&" + "p3" + "=" + "3", "/index.php/Main", "", "?p1=1&p2=2&p3=3");
  }

  /** Type 3: `/?/Main/getUrlSecurityParams/p1/1/p2/2/p3/3`. */
  lemma MakeLinkTypeThree(cipher: string -> string)
    ensures var dot, ext := "/", "";
            FirstUrl(TestEnv(3, dot), "Main" + ":" + "getUrlSecurityParams", ArrayParams(TestParams()), cipher)
              == Ok("/?/Main" + dot + "getUrlSecurityParams" + dot + "p1" + dot + "1" + dot + "p2" + dot + "2" + dot + "p3" + dot + "3" + ext)
  {
    var action := "getUrlSecurityParams";
    ActionFree();
    TestLink(3, "/", "Main", action, TestParams(), cipher);
    assert SegmentPrefix(TestConfig(3, "/"), "Main") == "?" + "/";
    TestKeyed();
    QueryHead();
    RegroupKeyed("/", "?" + "/", "Main", "/", action, "p1", "1", "p2", "2", "p3", "3", "/?/Main", "");
  }

  /** Type 4: `/index.php/Main/getUrlSecurityParams/p1/1/p2/2/p3/3`. */
  lemma MakeLinkTypeFour(cipher: string -> string)
    ensures var dot, ext := "/", "";
            FirstUrl(TestEnv(4, dot), "Main" + ":" + "getUrlSecurityParams", ArrayParams(TestParams()), cipher)
              == Ok("/index.php/Main" + dot + "getUrlSecurityParams" + dot + "p1" + dot + "1" + dot + "p2" + dot + "2" + dot + "p3" + dot + "3" + ext)
  {
    var action := "getUrlSecurityParams";
    ActionFree();
    TestLink(4, "/", "Main", action, TestParams(), cipher);
    assert SegmentPrefix(TestConfig(4, "/"), "Main") == "index.php" + "/";
    TestKeyed();
    IndexHead();
    RegroupKeyed("/", "index.php" + "/", "Main", "/", action, "p1", "1", "p2", "2", "p3", "3", "/index.php/Main", "");
  }

  /** Type 5: `/index.php/Main/getUrlSecurityParams/1/2/3`. */
  lemma MakeLinkTypeFive(cipher: string -> string)
    ensures var dot, ext := "/", "";
            FirstUrl(TestEnv(5, dot), "Main" + ":" + "getUrlSecurityParams", ArrayParams(TestParams()), cipher)
              == Ok("/index.php/Main" + dot + "getUrlSecurityParams" + dot + "1" + dot + "2" + dot + "3" + ext)
  {
    var action := "getUrlSecurityParams";
    ActionFree();
    TestLink(5, "/", "Main", action, TestParams(), cipher);
    assert SegmentPrefix(TestConfig(5, "/"), "Main") == "index.php" + "/";
    PositionalThree(TestParams(), "/");
    IndexHead();
    RegroupPositional("/", "index.php" + "/", "Main", "/", action, "1", "2", "3", "/index.php/Main", "");
  }

  /** The action name of the test holds no ':'. */
  lemma ActionFree()
    ensures FreeOf("getUrlSecurityParams", ":")
  {
  }

  /** The test's parameters need no escaping, so their query string is written as is. */
  lemma TestQuery()
    ensures UrlEncode.BuildQuery(TestParams()) == "p1" + "=" + "1" + "&" + "p2" + "=" + "2" + "&" + "p3" + "=" + "3"
  {
    var a := TestParams();
    assert forall i, j :: 0 <= i < 3 && 0 <= j < |KeyString(a[i].0)| ==> UrlEncode.Unreserved(KeyString(a[i].0)[j]);
    assert forall i, j :: 0 <= i < 3 && 0 <= j < |a[i].1| ==> UrlEncode.Unreserved(a[i].1[j]);
    QueryThree(a);
  }

  /** The test's parameters written key and value in turn. */
  lemma TestKeyed()
    ensures KeyedSegment(TestParams(), "/") == "p1" + "/" + "1" + "/" + "p2" + "/" + "2" + "/" + "p3" + "/" + "3"
  {
    var a := TestParams();
    assert a[2].1 == "3";
    KeyedThree(a, "/");
    assert KeyString(a[0].0) == "p1" && KeyString(a[1].0) == "p2" && KeyString(a[2].0) == "p3";
  }

  /** The head of the type 1 and 3 links, spelt out. */
  lemma QueryHead()
    ensures "/" + ("?" + "/") + "Main" == "/?/Main"
  {
  }

  /** The head of the type 2, 4 and 5 links, spelt out. */
  lemma IndexHead()
    ensures "/" + ("index.php" + "/") + "Main" == "/index.php/Main"
  {
  }

  /** The query string of the type 2 link, spelt out. */
  lemma QueryTail()
    ensures "?" + ("p1" + "=" + "1" + "&" + "p2" + "=" + "2" + "&" + "p3" + "=" + "3") == "?p1=1&p2=2&p3=3"
  {
  }

  lemma RegroupPositional(x: string, p: string, c: string, d: string, a: string, v1: string, v2: string, v3: string, head: string, ext: string)
    requires head == x + p + c && ext == ""
    ensures x + p + c + d + a + d + (v1 + d + v2 + d + v3) == head + d + a + d + v1 + d + v2 + d + v3 + ext
  {
  }

  lemma RegroupKeyed(x: string, p: string, c: string, d: string, a: string,
                     k1: string, v1: string, k2: string, v2: string, k3: string, v3: string, head: string, ext: string)
    requires head == x + p + c && ext == ""
    ensures x + p + c + d + a + d + (k1 + d + v1 + d + k2 + d + v2 + d + k3 + d + v3)
              == head + d + a + d + k1 + d + v1 + d + k2 + d + v2 + d + k3 + d + v3 + ext
  {
  }

  lemma RegroupQuery(x: string, p: string, c: string, d: string, a: string, s: string, q: string, head: string, ext: string, tail: string)
    requires head == x + p + c && ext == "" && tail == s + q
    ensures x + p + c + d + a + s + q == head + d + a + ext + tail
  {
  }
}
