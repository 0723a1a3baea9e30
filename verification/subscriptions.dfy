/** Repository subscriptions: one key per pair, and a prefix scan that finds the chats of a repository. */
module Subscriptions {
  import opened ByteOrder

  function Key(repository: string, chat: string): string { repository + NUL + chat }

  /** The scan of a repository comes past this chat: its key is there, and no key equals the bare prefix. */
  predicate Found(bucket: set<string>, repository: string, chat: string) {
    chat != "" && Key(repository, chat) in bucket && repository + NUL !in bucket
  }

  // ----- Order and prefixes -----

  lemma {:induction false} PrefixComesFirst(p: string, k: string)
    requires p <= k
    ensures AtMost(p, k)
  {
    if p != "" {
      PrefixComesFirst(p[1..], k[1..]);
      assert p == [p[0]] + p[1..] && k == [k[0]] + k[1..];
    }
  }

  /** The keys with a prefix are consecutive: nothing else lies between the prefix and one of them. */
  lemma {:induction false} PrefixConvex(p: string, k: string, j: string)
    requires AtMost(p, k) && Less(k, j) && p <= j
    ensures p <= k
  {
    if p == k {
    } else if p != "" {
      assert p[0] == j[0] && k != "";
      assert k[0] == p[0];
      assert p[1..] <= j[1..];
      PrefixConvex(p[1..], k[1..], j[1..]);
      assert p == [p[0]] + p[1..] && k == [k[0]] + k[1..];
    }
  }

  lemma {:induction false} LessAfterPrefix(p: string, a: string, b: string)
    ensures Less(p + a, p + b) <==> Less(a, b)
  {
    if p == "" {
      assert p + a == a && p + b == b;
    } else {
      assert (p + a)[1..] == p[1..] + a && (p + b)[1..] == p[1..] + b;
      LessAfterPrefix(p[1..], a, b);
    }
  }

  // ----- The bucket -----

  class SubscriptionStore {
    var bucket: set<string>
    ghost var pairs: set<(string, string)>

    /** The keys are those of the pairs that were added. */
    ghost predicate Valid()
      reads this
    {
      && bucket == Encoded(pairs)
      && forall p <- pairs :: p.0 != "" && p.1 != ""
    }

    constructor ()
      ensures Valid() && pairs == {}
    {
      bucket, pairs := {}, {};
    }

    method AddRepositorySubscription(chat: string, repository: string) returns (ok: bool)
      requires Valid()
      modifies this
      ensures Valid()
      ensures ok <==> chat != "" && repository != ""
      ensures pairs == if ok then old(pairs) + {(repository, chat)} else old(pairs)
    {
      if chat == "" || repository == "" {
        return false;
      }
      bucket := bucket + {Key(repository, chat)};
      pairs := pairs + {(repository, chat)};
      return true;
    }

    /** The cursor is sought to the prefix and moves on while the keys are longer than it and start with it. */
    method RepositorySubscribers(repository: string) returns (subscribers: seq<string>)
      ensures forall i, j :: 0 <= i < j < |subscribers| ==> Less(subscribers[i], subscribers[j])
      ensures forall c :: c in subscribers <==> Found(bucket, repository, c)
    {
      var prefix := repository + NUL;
      subscribers := [];
      var rest := set k | k in bucket && AtMost(prefix, k);
      forall c | Key(repository, c) in bucket ensures Key(repository, c) in rest {
        PrefixComesFirst(prefix, Key(repository, c));
      }
      Irreflexive(prefix);
      while rest != {}
        invariant rest <= bucket && forall k <- rest :: AtMost(prefix, k)
        invariant forall i, j :: 0 <= i < j < |subscribers| ==> Less(subscribers[i], subscribers[j])
        invariant forall c :: Key(repository, c) in bucket <==> Key(repository, c) in rest || c in subscribers
        invariant forall c, k :: c in subscribers && k in rest ==> Less(Key(repository, c), k)
        invariant forall c <- subscribers :: c != ""
        invariant prefix in bucket ==> prefix in rest && subscribers == []
        decreases |rest|
      {
        FirstExists(rest);
        var key :| key in rest && IsFirst(key, rest);
        PrefixIsFirst(prefix, key, rest);
        if !(|key| > |prefix| && key[..|prefix|] == prefix) {
          ScanEnds(repository, key, rest);
          break;
        }
        var chat := key[|prefix|..];
        assert key == Key(repository, chat);
        StepOrdered(repository, subscribers, chat);
        rest := rest - {key};
        subscribers := subscribers + [chat];
      }
    }
  }

  ghost function Encoded(pairs: set<(string, string)>): set<string> {
    set p | p in pairs :: Key(p.0, p.1)
  }

  /** At the first key that does not extend the prefix the scan has seen everything, or stands on the prefix itself. */
  lemma ScanEnds(repository: string, key: string, rest: set<string>)
    requires IsFirst(key, rest) && AtMost(repository + NUL, key)
    requires !(repository + NUL < key)
    ensures forall c :: c != "" && Key(repository, c) in rest ==> key == repository + NUL
  {
    forall c | c != "" && Key(repository, c) in rest ensures key == repository + NUL {
      if Less(key, Key(repository, c)) {
        PrefixConvex(repository + NUL, key, Key(repository, c));
      }
    }
  }

  lemma PrefixIsFirst(prefix: string, key: string, rest: set<string>)
    requires IsFirst(key, rest) && AtMost(prefix, key)
    ensures prefix in rest ==> key == prefix
  {
    if Less(prefix, key) {
      Asymmetric(prefix, key);
    }
  }

  lemma StepOrdered(repository: string, subscribers: seq<string>, chat: string)
    requires forall c <- subscribers :: Less(Key(repository, c), Key(repository, chat))
    ensures forall c <- subscribers :: Less(c, chat)
  {
    forall c | c in subscribers ensures Less(c, chat) {
      LessAfterPrefix(repository + NUL, c, chat);
    }
  }

  // ----- What the scan means -----

  /** Neither name continues the other with a NUL. */
  predicate Separate(r: string, q: string) {
    !(r + NUL <= q) && !(q + NUL <= r)
  }

  /** Two repositories never share a key exactly when their names are separate, whatever the chats. */
  lemma NamesSeparateIff(r: string, q: string)
    requires r != q
    ensures (forall c, d :: c != "" && d != "" ==> Key(r, c) != Key(q, d)) <==> Separate(r, q)
  {
    if r + NUL <= q {
      SharesKey(r, q);
    } else if q + NUL <= r {
      SharesKey(q, r);
    } else {
      forall c, d | c != "" && d != "" ensures Key(r, c) != Key(q, d) {
        if Key(r, c) == Key(q, d) { Disagree(r, q, c, d); }
      }
    }
  }

  lemma SharesKey(r: string, q: string)
    requires r + NUL <= q
    ensures exists c, d :: c != "" && d != "" && Key(r, c) == Key(q, d)
  {
    var rest := q[|r| + 1..];
    assert q == r + NUL + rest;
    assert Key(r, rest + NUL + "x") == Key(q, "x");
  }

  lemma Disagree(r: string, q: string, c: string, d: string)
    requires r != q && Key(r, c) == Key(q, d)
    ensures !Separate(r, q)
  {
    var key := Key(r, c);
    assert key[..|r|] == r && key[..|q|] == q && key[..|r| + 1] == r + NUL && key[..|q| + 1] == q + NUL;
    if |r| < |q| {
      assert q[..|r| + 1] == r + NUL;
    } else if |q| < |r| {
      assert r[..|q| + 1] == q + NUL;
    }
  }

  lemma NulFreeNamesSeparate(r: string, q: string)
    requires NoNul(r) && NoNul(q)
    ensures Separate(r, q)
  {
    NulInLonger(r, q);
    NulInLonger(q, r);
  }

  lemma NulInLonger(r: string, q: string)
    ensures r + NUL <= q ==> !NoNul(q)
  {
    assert r + NUL <= q ==> q[|r|] == '\0';
  }

  /** The subscribers found are exactly the chats subscribed to that repository, if its name is separate from every other. */
  lemma SubscribersAreExact(pairs: set<(string, string)>, repository: string, chat: string)
    requires forall p <- pairs :: p.1 != "" && (p.0 == repository || Separate(p.0, repository))
    requires chat != ""
    ensures Found(Encoded(pairs), repository, chat) <==> (repository, chat) in pairs
  {
    forall p | p in pairs
      ensures Key(p.0, p.1) != repository + NUL
      ensures Key(p.0, p.1) == Key(repository, chat) ==> p == (repository, chat)
    {
      if p.0 == repository {
        SameName(repository, p.1, chat);
      } else {
        if Key(p.0, p.1) == Key(repository, "") { Disagree(p.0, repository, p.1, ""); }
        assert Key(repository, "") == repository + NUL;
        if Key(p.0, p.1) == Key(repository, chat) { Disagree(p.0, repository, p.1, chat); }
      }
    }
  }

  lemma SameName(repository: string, c: string, d: string)
    ensures Key(repository, c) == Key(repository, d) <==> c == d
    ensures c != "" ==> Key(repository, c) != repository + NUL
  {
    assert Key(repository, c)[|repository| + 1..] == c && Key(repository, d)[|repository| + 1..] == d;
  }

  // ----- The chats of a delivery -----

  ghost predicate NoDuplicates(s: seq<string>) {
    forall i, j :: 0 <= i < j < |s| ==> s[i] != s[j]
  }

  /** deliveryTargets: the default chat first, then each subscriber once, in scan order. */
  method DeliveryTargets(defaultChat: string, repository: string, subscriptions: SubscriptionStore) returns (targets: seq<string>)
    ensures |targets| > 0 && targets[0] == defaultChat && NoDuplicates(targets)
    ensures repository == "" ==> targets == [defaultChat]
    ensures defaultChat in targets && forall c :: c != defaultChat ==>
      (c in targets <==> repository != "" && Found(subscriptions.bucket, repository, c))
  {
    targets := [defaultChat];
    if repository == "" {
      return;
    }
    var subscribers := subscriptions.RepositorySubscribers(repository);
    var seen := {defaultChat};
    for i := 0 to |subscribers|
      invariant |targets| > 0 && targets[0] == defaultChat && NoDuplicates(targets)
      invariant forall c :: c in seen <==> c in targets
      invariant forall c :: c in targets <==> c == defaultChat || c in subscribers[..i]
    {
      assert subscribers[..i + 1] == subscribers[..i] + [subscribers[i]];
      if subscribers[i] !in seen {
        targets, seen := targets + [subscribers[i]], seen + {subscribers[i]};
      }
    }
    assert subscribers[..|subscribers|] == subscribers;
  }
}
