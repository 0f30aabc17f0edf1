/** The callsign order of the server's maps, and the user caches that say where
    a callsign was last heard. */
module Caches {

  datatype Option<+T> = None | Some(value: T)

  // ---- map order ----

  /** Lexicographic order, as std::map iterates. */
  predicate Below(a: string, b: string) {
    b != "" && (a == "" || a[0] < b[0] || (a[0] == b[0] && Below(a[1..], b[1..])))
  }

  lemma {:induction false} BelowTotal(a: string, b: string)
    ensures a == b || Below(a, b) || Below(b, a)
    ensures !(Below(a, b) && Below(b, a)) && !Below(a, a)
  {
    if a != "" && b != "" {
      BelowTotal(a[1..], b[1..]);
      if a[0] == b[0] && a[1..] == b[1..] {
        assert a == [a[0]] + a[1..] && b == [b[0]] + b[1..];
      }
      BelowTotal(a[1..], a[1..]);
    } else if a != "" {
      BelowTotal(a[1..], a[1..]);
    }
  }

  lemma {:induction false} BelowTransitive(a: string, b: string, c: string)
    requires Below(a, b) && Below(b, c)
    ensures Below(a, c)
  {
    if a != "" && a[0] == b[0] == c[0] {
      BelowTransitive(a[1..], b[1..], c[1..]);
    }
  }

  predicate IsLeast(k: string, s: set<string>) {
    k in s && forall x | x in s :: x == k || Below(k, x)
  }

  lemma {:induction false} LeastExists(s: set<string>)
    requires s != {}
    ensures exists k :: IsLeast(k, s)
  {
    var a :| a in s;
    if s == {a} {
      assert IsLeast(a, s);
    } else {
      LeastExists(s - {a});
      var k :| IsLeast(k, s - {a});
      BelowTotal(a, k);
      if Below(a, k) {
        forall x | x in s
          ensures x == a || Below(a, x)
        {
          if x != a && x != k {
            BelowTransitive(a, k, x);
          }
        }
        assert IsLeast(a, s);
      } else {
        assert IsLeast(k, s);
      }
    }
  }

  /** The keys of a map in the order it is walked. */
  function Sorted(s: set<string>): (keys: seq<string>)
    ensures forall k :: k in keys <==> k in s
    ensures forall i, j | 0 <= i < j < |keys| :: keys[i] != keys[j]
    decreases |s|
  {
    if s == {} then []
    else
      LeastExists(s);
      assert forall k, l | IsLeast(k, s) && IsLeast(l, s) :: k == l by {
        forall k, l | IsLeast(k, s) && IsLeast(l, s) ensures k == l {
          BelowTotal(k, l);
        }
      }
      var k :| IsLeast(k, s);
      [k] + Sorted(s - {k})
  }

  /** Each key comes before all later ones. */
  lemma {:induction false} SortedInOrder(s: set<string>)
    ensures forall i, j | 0 <= i < j < |Sorted(s)| :: Below(Sorted(s)[i], Sorted(s)[j])
    decreases |s|
  {
    if s != {} {
      var keys := Sorted(s);
      var k := keys[0];
      LeastExists(s);
      assert IsLeast(k, s) && keys[1..] == Sorted(s - {k});
      SortedInOrder(s - {k});
      forall i, j | 0 <= i < j < |keys|
        ensures Below(keys[i], keys[j])
      {
        assert keys[j] == keys[1..][j - 1] && keys[j] in s;
        if i == 0 {
          assert keys[j] != k;
        } else {
          assert keys[i] == keys[1..][i - 1];
        }
      }
    }
  }

  // ---- where users are ----

  /** A user's repeater, that repeater's gateway and the gateway's address. */
  datatype Route = Route(rptr: string, gate: string, addr: string)

  datatype Cache = Cache(userRptr: map<string, string>, rptrGate: map<string, string>, gateAddr: map<string, string>) {

    function UserRepeater(user: string): string {
      if user == "" || user !in userRptr then "" else userRptr[user]
    }

    /** An unknown repeater's gateway is its own callsign with module G. */
    function RepeaterGate(rptr: string): string {
      if rptr == "" then ""
      else if rptr in rptrGate then rptrGate[rptr]
      else if |rptr| < 8 then rptr
      else rptr[7 := 'G']
    }

    function GateAddress(gate: string): string {
      if gate == "" || gate !in gateAddr then "" else gateAddr[gate]
    }

    function UserData(user: string): Route {
      var rptr := UserRepeater(user);
      var gate := RepeaterGate(rptr);
      Route(rptr, gate, GateAddress(gate))
    }

    lemma AddressNeedsRepeater(user: string)
      ensures UserData(user).addr != "" ==> UserData(user).rptr != ""
    {
    }

    /** The user was last heard at rptr. */
    predicate HeardAt(user: string, rptr: string) {
      user != "" && user in userRptr && userRptr[user] == rptr && rptr != ""
    }

    /** A way to the user: the repeater recorded for him, the gateway recorded for
        that repeater or else its callsign with G as eighth character, and the address
        recorded for that gateway. */
    predicate Leads(user: string, r: Route) {
      && HeardAt(user, r.rptr)
      && (if r.rptr in rptrGate then r.gate == rptrGate[r.rptr] else GatewayOf(r.gate, r.rptr))
      && r.gate != "" && r.gate in gateAddr && gateAddr[r.gate] == r.addr && r.addr != ""
    }

    lemma UserDataIff(user: string, r: Route)
      ensures Leads(user, r) <==> UserData(user) == r && r.addr != ""
    {
      var d := UserData(user);
      if Leads(user, r) && r.rptr !in rptrGate {
        assert r.gate == d.gate;
      }
    }
  }

  predicate GatewayOf(gate: string, rptr: string) {
    |gate| == |rptr| && forall i | 0 <= i < |rptr| :: gate[i] == if i == 7 then 'G' else rptr[i]
  }

  /** One cache for each ircDDB connection; the second is there on a dual-stack
      server. */
  datatype Pair = Pair(irc0: Cache, irc1: Option<Cache>) {

    function Locate(user: string): Route {
      var r := irc0.UserData(user);
      if r.addr == "" && irc1.Some? then irc1.value.UserData(user) else r
    }

    predicate Located(user: string) {
      Locate(user).addr != ""
    }

    /** The repeater that a talker's own stream is kept away from. */
    function Home(user: string): string {
      var r := irc0.UserRepeater(user);
      if r == "" && irc1.Some? then irc1.value.UserRepeater(user) else r
    }

    /** A way to the user in the first cache, or in the second when the first has
        none. */
    ghost predicate Leads(user: string, r: Route) {
      || irc0.Leads(user, r)
      || (irc1.Some? && irc1.value.Leads(user, r) && forall q :: !irc0.Leads(user, q))
    }

    ghost predicate HomeIs(user: string, k: string) {
      || irc0.HeardAt(user, k)
      || (irc1.Some? && irc1.value.HeardAt(user, k) && forall j :: !irc0.HeardAt(user, j))
    }

    /** Locating a user finds the one way to him there is, if any. */
    lemma LocateIff(user: string, r: Route)
      ensures Leads(user, r) <==> Locate(user) == r && r.addr != ""
    {
      irc0.UserDataIff(user, r);
      irc0.UserDataIff(user, irc0.UserData(user));
      if irc1.Some? {
        irc1.value.UserDataIff(user, r);
      }
      forall q | irc0.Leads(user, q)
        ensures q == irc0.UserData(user)
      {
        irc0.UserDataIff(user, q);
      }
    }

    /** A user is located exactly when there is a way to him in one of the caches. */
    lemma LocatedIff(user: string)
      ensures Located(user) <==>
              (exists r :: irc0.Leads(user, r)) || (irc1.Some? && exists r :: irc1.value.Leads(user, r))
    {
      var r := Locate(user);
      LocateIff(user, r);
      forall q | irc1.Some? && irc1.value.Leads(user, q)
        ensures Located(user)
      {
        irc1.value.UserDataIff(user, q);
        irc0.UserDataIff(user, irc0.UserData(user));
      }
      forall q | irc0.Leads(user, q)
        ensures Located(user)
      {
        LocateIff(user, q);
      }
    }

    lemma HomeIff(user: string, k: string)
      ensures HomeIs(user, k) <==> Home(user) == k && k != ""
    {
      assert irc0.UserRepeater(user) != "" <==> irc0.HeardAt(user, irc0.UserRepeater(user));
      assert forall j | irc0.HeardAt(user, j) :: j == irc0.UserRepeater(user);
    }
  }
}
