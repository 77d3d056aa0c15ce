/** The dedupe identity of an inbound fact (crates/actor_client/src/enqueue.rs), `source:externalId`
    hashed, and the source names the repository gives it: the adapters' and the routed steps' of its
    process managers (crates/application/src/generated/process_managers.rs). */
module Sources {
  import opened Entries

  /** Facts of these sources share an identity only when they are the same source's same event. */
  ghost predicate IdentityInjective(sources: set<string>) {
    forall s, t, x, y ::
      s in sources && t in sources && InboundMessageId(s, x) == InboundMessageId(t, y) ==> s == t && x == y
  }

  /** No source's name is another one followed by a colon and anything. */
  ghost predicate Unprefixed(sources: set<string>) {
    forall a, b :: a in sources && b in sources ==> !Prefixes(a, b)
  }

  predicate Prefixes(a: string, b: string) {
    a + ":" <= b
  }

  lemma {:induction false} SameName(s: string, t: string, x: string, y: string)
    requires s + ":" + x == t + ":" + y
    ensures (s == t && x == y) || Prefixes(s, t) || Prefixes(t, s)
  {
    var name := s + ":" + x;
    assert s == name[..|s|] && t == name[..|t|] && name[|s|] == ':' && name[|t|] == ':';
    if |s| == |t| {
      assert x == name[|s| + 1..] == y;
    } else if |s| < |t| {
      assert t[..|s| + 1] == name[..|s| + 1] == s + ":";
    } else {
      assert s[..|t| + 1] == name[..|t| + 1] == t + ":";
    }
  }

  /** The dedupe identity does not mark where the source ends: it tells the events of a set of
      sources apart exactly when no name in the set runs on from another one past a colon. */
  lemma InboundIdentityIff(sources: set<string>)
    ensures IdentityInjective(sources) <==> Unprefixed(sources)
  {
    if Unprefixed(sources) {
      forall s, t, x, y | s in sources && t in sources && InboundMessageId(s, x) == InboundMessageId(t, y)
        ensures s == t && x == y
      {
        SameName(s, t, x, y);
      }
    } else {
      var a, b :| a in sources && b in sources && Prefixes(a, b);
      var rest := b[|a| + 1..];
      assert b == a + ":" + rest;
      assert b + ":" + "" == a + ":" + (rest + ":");
      assert InboundMessageId(b, "") == InboundMessageId(a, rest + ":");
      assert a != b;
    }
  }

  /** The frozen door identity of a routed step: `pm:{ProcessManager}:{Message}`. */
  function RouteSource(manager: string, message: string): string {
    "pm:" + manager + ":" + message
  }

  /** An adapter's name, or a route of a process manager. */
  ghost predicate IsDeclaredSource(source: string) {
    || (':' !in source && source != "pm")
    || exists manager, message :: ':' !in manager && ':' !in message && source == RouteSource(manager, message)
  }

  lemma RouteRunsOn(a: string, manager: string, message: string)
    requires ':' !in manager && ':' !in message && Prefixes(a, RouteSource(manager, message))
    ensures a == "pm" || a == "pm:" + manager
  {
    var route := RouteSource(manager, message);
    assert route[|a|] == (a + ":")[|a|] == ':' && a == route[..|a|];
    assert forall i :: 3 <= i < 3 + |manager| ==> route[i] == manager[i - 3];
    assert forall i :: 4 + |manager| <= i < |route| ==> route[i] == message[i - 4 - |manager|];
    assert |a| == 2 || |a| == 3 + |manager|;
  }

  /** Whatever the adapters and process managers are called, colons apart: declared sources never
      run on from one another. */
  lemma DeclaredSourcesUnprefixed(sources: set<string>)
    requires forall source :: source in sources ==> IsDeclaredSource(source)
    ensures Unprefixed(sources) && IdentityInjective(sources)
  {
    forall a, b | a in sources && b in sources ensures !Prefixes(a, b) {
      assert IsDeclaredSource(a) && IsDeclaredSource(b);
      if Prefixes(a, b) {
        assert b[|a|] == (a + ":")[|a|] == ':';
        var manager, message :| ':' !in manager && ':' !in message && b == RouteSource(manager, message);
        RouteRunsOn(a, manager, message);
        NotARoute(a, manager);
      }
    }
    InboundIdentityIff(sources);
  }

  lemma NotARoute(a: string, manager: string)
    requires ':' !in manager && (a == "pm" || a == "pm:" + manager)
    ensures !IsDeclaredSource(a)
  {
    assert a == "pm:" + manager ==> a[2] == ':' && forall i :: 3 <= i < |a| ==> a[i] == manager[i - 3];
    forall m, n | ':' !in m && ':' !in n ensures a != RouteSource(m, n) {
      var route := RouteSource(m, n);
      assert route[2] == ':' && route[3 + |m|] == ':';
    }
  }

  /** The sources whose facts enter the mailbox: five adapters and five routes. */
  const ADAPTERS: set<string> := {"stripe", "uber_direct", "avelo37", "coopcycle", "sirene"}
  const ROUTES: set<(string, string)> := {
    ("CartBindingProcess", "BindCartToCustomer"), ("ReclamationProcess", "GrantCustomerCredit"),
    ("DeliveryDispatchProcess", "MarkOrderDelivered"), ("PlaceOrderProcess", "OrderPlaced"),
    ("ReclamationProcess", "PlaceReplacementOrder")}

  predicate Plain(name: string) {
    ':' !in name
  }

  lemma AdaptersPlain()
    ensures forall name :: name in ADAPTERS ==> Plain(name) && |name| > 2
  {
    assert Plain("stripe") && Plain("uber_direct") && Plain("avelo37") && Plain("coopcycle") && Plain("sirene");
  }

  lemma ManagersPlain()
    ensures Plain("CartBindingProcess") && Plain("ReclamationProcess") && Plain("DeliveryDispatchProcess") && Plain("PlaceOrderProcess")
  {
  }

  lemma RoutesPlain()
    ensures forall r :: r in ROUTES ==> Plain(r.0) && Plain(r.1)
  {
    ManagersPlain();
    assert Plain("BindCartToCustomer") && Plain("GrantCustomerCredit") && Plain("PlaceReplacementOrder");
    assert Plain("MarkOrderDelivered") && Plain("OrderPlaced");
  }

  lemma RepositorySourcesInjective()
    ensures IdentityInjective(ADAPTERS + set r | r in ROUTES :: RouteSource(r.0, r.1))
  {
    var adapters, routes := ADAPTERS, set r | r in ROUTES :: RouteSource(r.0, r.1);
    AdaptersPlain();
    RoutesPlain();
    forall source | source in adapters + routes ensures IsDeclaredSource(source) {
      if source in adapters {
        assert Plain(source);
      } else {
        var r :| r in ROUTES && source == RouteSource(r.0, r.1);
        assert Plain(r.0) && Plain(r.1);
      }
    }
    DeclaredSourcesUnprefixed(adapters + routes);
  }

  /** Names that do run on: with a source "a" and a source "a:b" two events are one. */
  lemma InboundIdentityClash()
    ensures InboundMessageId("a:b", "c") == InboundMessageId("a", "b:c") && !Unprefixed({"a:b", "a"})
  {
    assert "a:b" + ":" + "c" == "a" + ":" + "b:c";
    assert Prefixes("a", "a:b");
  }
}
