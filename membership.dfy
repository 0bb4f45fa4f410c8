/** Functions over one room's ordered member list: the `users` list, the
    filter run on close, and the sends one broadcast produces. */
module Membership {
  import opened Wire

  /** The usernames of the members, in member-list order. */
  function Usernames(ms: seq<Member>): (names: seq<string>)
    ensures |names| == |ms|
    ensures forall i :: 0 <= i < |ms| ==> names[i] == ms[i].username
  {
    if ms == [] then [] else [ms[0].username] + Usernames(ms[1..])
  }

  /** The connections of the members, in member-list order (with repeats when
      one connection holds several entries). */
  function Conns(ms: seq<Member>): (cs: seq<Conn>)
    ensures |cs| == |ms|
    ensures forall i :: 0 <= i < |ms| ==> cs[i] == ms[i].conn
  {
    if ms == [] then [] else [ms[0].conn] + Conns(ms[1..])
  }

  /** The member list with every entry of connection `c` filtered out. */
  function Without(ms: seq<Member>, c: Conn): (rest: seq<Member>)
    ensures |rest| <= |ms|
    ensures forall i :: 0 <= i < |rest| ==> rest[i].conn != c && rest[i] in ms
  {
    if ms == [] then []
    else if ms[0].conn == c then Without(ms[1..], c)
    else [ms[0]] + Without(ms[1..], c)
  }

  /** The sends of one broadcast of `p` to the members: one per entry whose
      connection is open, in member-list order. */
  function Fanout(ms: seq<Member>, open: set<Conn>, p: Payload): (sends: seq<Send>)
    ensures |sends| <= |ms|
  {
    if ms == [] then [] else Reach(ms[0], open, p) + Fanout(ms[1..], open, p)
  }

  /** What one entry gets from a broadcast: the payload if its socket is open. */
  function Reach(m: Member, open: set<Conn>, p: Payload): (sends: seq<Send>)
    ensures |sends| <= 1
    ensures Send(m.conn, p) in sends <==> m.conn in open
  {
    if m.conn in open then [Send(m.conn, p)] else []
  }

  /** Filtering commutes with concatenation: the kept entries keep their order. */
  lemma {:induction false} WithoutConcat(a: seq<Member>, b: seq<Member>, c: Conn)
    ensures Without(a + b, c) == Without(a, c) + Without(b, c)
  {
    if a != [] {
      assert (a + b)[1..] == a[1..] + b;
      WithoutConcat(a[1..], b, c);
    } else {
      assert a + b == b;
    }
  }

  /** Filtering removes every entry of `c` and keeps every other entry as
      often as it occurred. */
  lemma {:induction false} WithoutCount(ms: seq<Member>, c: Conn, m: Member)
    ensures multiset(Without(ms, c))[m] == if m.conn == c then 0 else multiset(ms)[m]
  {
    if ms != [] {
      assert ms == [ms[0]] + ms[1..];
      WithoutCount(ms[1..], c, m);
    }
  }

  /** Filtering a list that holds no entry of `c` changes nothing. */
  lemma {:induction false} WithoutAbsent(ms: seq<Member>, c: Conn)
    requires c !in Conns(ms)
    ensures Without(ms, c) == ms
  {
    if ms != [] {
      assert Conns(ms) == [ms[0].conn] + Conns(ms[1..]);
      WithoutAbsent(ms[1..], c);
    }
  }

  /** A connection other than `c` is in the filtered list exactly when it
      was in the list. */
  lemma {:induction false} ConnsWithout(ms: seq<Member>, c: Conn, x: Conn)
    requires x != c
    ensures x in Conns(Without(ms, c)) <==> x in Conns(ms)
  {
    if x in Conns(ms) {
      var i :| 0 <= i < |ms| && ms[i].conn == x;
      WithoutCount(ms, c, ms[i]);
      assert ms[i] in multiset(Without(ms, c));
      var j :| 0 <= j < |Without(ms, c)| && Without(ms, c)[j] == ms[i];
      assert Conns(Without(ms, c))[j] == x;
    }
  }

  /** Broadcasting to a concatenation sends to the first part's members
      first, then to the second part's: member-list order is send order. */
  lemma {:induction false} FanoutConcat(a: seq<Member>, b: seq<Member>, open: set<Conn>, p: Payload)
    ensures Fanout(a + b, open, p) == Fanout(a, open, p) + Fanout(b, open, p)
  {
    if a != [] {
      var r, x, y := Reach(a[0], open, p), Fanout(a[1..], open, p), Fanout(b, open, p);
      assert (a + b)[0] == a[0] && (a + b)[1..] == a[1..] + b;
      FanoutConcat(a[1..], b, open, p);
      assert r + (x + y) == (r + x) + y;
    } else {
      assert a + b == b;
    }
  }

  /** Connection `c` receives `p` exactly as many times as it has entries in
      the list when it is open, and never when it is not. */
  lemma {:induction false} FanoutCount(ms: seq<Member>, open: set<Conn>, p: Payload, c: Conn)
    ensures multiset(Fanout(ms, open, p))[Send(c, p)] ==
            if c in open then multiset(Conns(ms))[c] else 0
  {
    if ms != [] {
      assert Conns(ms) == [ms[0].conn] + Conns(ms[1..]);
      FanoutCount(ms[1..], open, p, c);
    }
  }

  /** A broadcast sends only its own payload, and only to open sockets. */
  lemma {:induction false} FanoutSendsOnly(ms: seq<Member>, open: set<Conn>, p: Payload, s: Send)
    requires s in Fanout(ms, open, p)
    ensures s.payload == p && s.to in open
  {
    if s !in Reach(ms[0], open, p) {
      FanoutSendsOnly(ms[1..], open, p, s);
    }
  }

  /** Who receives what: connection `c` is sent `q` by the broadcast of `p`
      if and only if `q` is `p`, `c` is open and `c` is a member. */
  lemma {:induction false} FanoutDelivers(ms: seq<Member>, open: set<Conn>, p: Payload, c: Conn, q: Payload)
    ensures Send(c, q) in Fanout(ms, open, p) <==> q == p && c in open && c in Conns(ms)
  {
    if Send(c, q) in Fanout(ms, open, p) {
      FanoutSendsOnly(ms, open, p, Send(c, q));
    }
    FanoutCount(ms, open, p, c);
    assert Send(c, p) in Fanout(ms, open, p) <==> multiset(Fanout(ms, open, p))[Send(c, p)] > 0;
    assert c in Conns(ms) <==> multiset(Conns(ms))[c] > 0;
  }
}
