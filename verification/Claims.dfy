/** The coarse-claims rule: what an identity assertion says, and the sorted union it ends with. */
module Claims {
  import opened Common
  import opened Directory

  // ----- strings in Go's order -----------------------------------------------------------

  /** Lexicographic order. */
  predicate Precedes(a: string, b: string) {
    if a == [] || b == [] then a == [] && b != []
    else a[0] < b[0] || (a[0] == b[0] && Precedes(a[1..], b[1..]))
  }

  /** The order by position: a proper prefix comes first, and otherwise the first difference decides. */
  lemma {:induction false} PrecedesMeans(a: string, b: string)
    ensures Precedes(a, b)
            <==> a < b || exists i | 0 <= i < |a| && i < |b| :: a[..i] == b[..i] && a[i] < b[i]
    decreases |a|
  {
    if a != [] && b != [] {
      PrecedesMeans(a[1..], b[1..]);
      if a[0] == b[0] {
        assert a < b <==> a[1..] < b[1..] by {
          assert a == [a[0]] + a[1..] && b == [b[0]] + b[1..];
        }
        forall i | 0 <= i < |a[1..]| && i < |b[1..]|
          ensures a[1..][..i] == b[1..][..i] <==> a[..i + 1] == b[..i + 1]
          ensures a[1..][i] == a[i + 1] && b[1..][i] == b[i + 1]
        {
          assert a[..i + 1] == [a[0]] + a[1..][..i] && b[..i + 1] == [b[0]] + b[1..][..i];
        }
        forall i | 0 < i < |a| && i < |b| && a[..i] == b[..i] && a[i] < b[i]
          ensures Precedes(a, b)
        {
          assert a[1..][..i - 1] == b[1..][..i - 1] && a[1..][i - 1] < b[1..][i - 1];
        }
      } else {
        assert a[..0] == b[..0];
        forall i | 0 < i < |a| && i < |b|
          ensures a[..i] != b[..i]
        {
          assert a[..i][0] != b[..i][0];
        }
      }
    }
  }

  lemma {:induction false} PrecedesIsTotal(a: string, b: string)
    ensures Precedes(a, b) || Precedes(b, a) || a == b
    ensures !(Precedes(a, b) && Precedes(b, a)) && !Precedes(a, a)
    decreases |a|
  {
    if a != [] {
      PrecedesIsTotal(a[1..], if b == [] then [] else b[1..]);
      assert b != [] && a[0] == b[0] && a[1..] == b[1..] ==> a == [a[0]] + a[1..] == [b[0]] + b[1..] == b;
    }
  }

  lemma {:induction false} PrecedesIsTransitive(a: string, b: string, c: string)
    requires Precedes(a, b) && Precedes(b, c)
    ensures Precedes(a, c)
    decreases |a|
  {
    if a != [] && a[0] == b[0] == c[0] {
      PrecedesIsTransitive(a[1..], b[1..], c[1..]);
    }
  }

  function Elements(s: seq<string>): set<string> {
    set x | x in s
  }

  ghost predicate Increasing(s: seq<string>) {
    forall i, j | 0 <= i < j < |s| :: Precedes(s[i], s[j])
  }

  /** An increasing list is determined by its elements. */
  lemma {:induction false} IncreasingIsUnique(s: seq<string>, t: seq<string>)
    requires Increasing(s) && Increasing(t) && Elements(s) == Elements(t)
    ensures s == t
    decreases |s|
  {
    if s == [] {
      assert forall i | 0 <= i < |t| :: t[i] in Elements(t);
    } else {
      assert s[0] in Elements(t);
      var i :| 0 <= i < |t| && t[i] == s[0];
      assert t[0] in Elements(s);
      var j :| 0 <= j < |s| && s[j] == t[0];
      PrecedesIsTotal(s[0], t[0]);
      assert s[0] == t[0];
      forall x ensures x in s[1..] <==> x in t[1..] {
        PrecedesIsTotal(s[0], s[0]);
        assert x in Elements(s) <==> x in Elements(t);
      }
      IncreasingIsUnique(s[1..], t[1..]);
    }
  }

  function Insert(x: string, s: seq<string>): (r: seq<string>)
    ensures multiset(r) == multiset(s) + multiset{x}
  {
    if s == [] || !Precedes(s[0], x) then [x] + s
    else
      assert s == [s[0]] + s[1..];
      [s[0]] + Insert(x, s[1..])
  }

  /** sort.Strings. */
  function Sort(s: seq<string>): (r: seq<string>)
    ensures multiset(r) == multiset(s)
  {
    if s == [] then []
    else
      assert s == [s[0]] + s[1..];
      Insert(s[0], Sort(s[1..]))
  }

  ghost predicate Distinct(s: seq<string>) {
    forall i, j | 0 <= i < j < |s| :: s[i] != s[j]
  }

  lemma {:induction false} InsertIncreases(x: string, s: seq<string>)
    requires Increasing(s) && x !in s
    ensures Increasing(Insert(x, s))
    decreases |s|
  {
    if s == [] {
    } else if !Precedes(s[0], x) {
      PrecedesIsTotal(s[0], x);
      forall j | 0 <= j < |s| ensures Precedes(x, s[j]) {
        if j > 0 { PrecedesIsTransitive(x, s[0], s[j]); }
      }
    } else {
      InsertIncreases(x, s[1..]);
      var r := Insert(x, s[1..]);
      forall j | 0 <= j < |r| ensures Precedes(s[0], r[j]) {
        assert r[j] in multiset(r);
        assert r[j] in s[1..] || r[j] == x;
      }
    }
  }

  lemma {:induction false} SortIncreases(s: seq<string>)
    requires Distinct(s)
    ensures Increasing(Sort(s)) && Elements(Sort(s)) == Elements(s)
    decreases |s|
  {
    if s != [] {
      SortIncreases(s[1..]);
      assert s[0] !in s[1..];
      assert forall x :: x in Elements(Sort(s[1..])) <==> x in s[1..];
      InsertIncreases(s[0], Sort(s[1..]));
    }
    assert forall x :: x in Sort(s) <==> x in multiset(Sort(s));
    assert forall x :: x in s <==> x in multiset(s);
  }

  lemma {:induction false} EnumerationExists(s: set<string>) returns (r: seq<string>)
    ensures Increasing(r) && Elements(r) == s
  {
    var rest := s;
    var listed: seq<string> := [];
    while rest != {}
      invariant Distinct(listed) && Elements(listed) == s - rest && rest <= s
      decreases rest
    {
      var x :| x in rest;
      assert x !in Elements(listed);
      rest := rest - {x};
      assert Elements(listed + [x]) == Elements(listed) + {x};
      listed := listed + [x];
    }
    SortIncreases(listed);
    r := Sort(listed);
  }

  /** The increasing list of a set of strings. */
  ghost function InOrder(s: set<string>): (r: seq<string>)
    ensures Increasing(r) && Elements(r) == s
  {
    assert exists r :: Increasing(r) && Elements(r) == s by {
      var r := EnumerationExists(s);
    }
    var r :| Increasing(r) && Elements(r) == s;
    r
  }

  /** unionSorted: drop repetitions, then sort. */
  method UnionSorted(a: seq<string>, b: seq<string>) returns (r: seq<string>)
    ensures r == InOrder(Elements(a) + Elements(b))
  {
    var seen: set<string> := {};
    var out: seq<string> := [];
    var both := a + b;
    for i := 0 to |both|
      invariant seen == Elements(out) == Elements(both[..i])
      invariant Distinct(out)
    {
      assert Elements(both[..i + 1]) == Elements(both[..i]) + {both[i]};
      if both[i] in seen {
        continue;
      }
      seen := seen + {both[i]};
      assert both[i] !in Elements(out);
      out := out + [both[i]];
    }
    assert both[..|both|] == both;
    assert Elements(both) == Elements(a) + Elements(b);
    SortIncreases(out);
    r := Sort(out);
    IncreasingIsUnique(r, InOrder(Elements(a) + Elements(b)));
  }

  // ----- the assertion ---------------------------------------------------------------------

  const APPS: string := "apps"
  const PROFILE: string := "profile"
  const EMAIL: string := "email"

  /** The fields of a userinfo object; `claims` are the appended ones. */
  datatype UserInfo = UserInfo(
    subject: string,
    name: string,
    email: string,
    emailVerified: bool,
    claims: map<string, seq<string>>)

  const BLANK: UserInfo := UserInfo("", "", "", false, map[])

  /** What asserting one identity writes into a userinfo object, in terms of the set of scopes. */
  ghost function Assert(info: UserInfo, id: Identity, scopes: set<string>, clientIDs: set<Id>): UserInfo {
    var mail := EMAIL in scopes && id.email != "";
    UserInfo(
      id.subject,
      if PROFILE in scopes then id.name else info.name,
      if mail then id.email else info.email,
      if mail then true else info.emailVerified,
      info.claims[APPS := InOrder(Elements(id.apps) + clientIDs)])
  }

  /** setCoarseUserinfo over a directory; None where the subject is unknown. */
  ghost function CoarseUserInfo(dir: seq<Identity>, info: UserInfo, subject: string, scopes: seq<string>,
                                clientIDs: set<Id>): Option<UserInfo>
  {
    match Find(dir, subject)
    case None => None
    case Some(id) => Some(Assert(info, id, Elements(scopes), clientIDs))
  }

  /** Equal in everything that may be asserted; tenant, roles and groups are free. */
  predicate SameCoarse(a: Identity, b: Identity) {
    a.subject == b.subject && a.name == b.name && a.email == b.email && a.apps == b.apps
  }

  predicate SameCoarseDirectory(a: seq<Identity>, b: seq<Identity>) {
    |a| == |b| && forall i | 0 <= i < |a| :: SameCoarse(a[i], b[i])
  }

  lemma {:induction false} FindSameCoarse(a: seq<Identity>, b: seq<Identity>, subject: string)
    requires SameCoarseDirectory(a, b)
    ensures Find(a, subject).Some? <==> Find(b, subject).Some?
    ensures Find(a, subject).Some? ==> SameCoarse(Find(a, subject).value, Find(b, subject).value)
    decreases |a|
  {
    if a != [] {
      assert SameCoarse(a[0], b[0]);
      if a[0].subject != subject {
        assert forall i | 0 <= i < |a[1..]| :: a[1..][i] == a[i + 1] && b[1..][i] == b[i + 1];
        FindSameCoarse(a[1..], b[1..], subject);
      }
    }
  }

  /** Nothing stored beyond the coarse fields reaches the assertion, and of the requested scopes only which
      ones they are: not their order, not their repetition. */
  lemma StoredProfileIsNeverAsserted(a: seq<Identity>, b: seq<Identity>, info: UserInfo, subject: string,
                                     scopesA: seq<string>, scopesB: seq<string>, clientIDs: set<Id>)
    requires SameCoarseDirectory(a, b) && Elements(scopesA) == Elements(scopesB)
    ensures CoarseUserInfo(a, info, subject, scopesA, clientIDs) == CoarseUserInfo(b, info, subject, scopesB, clientIDs)
  {
    FindSameCoarse(a, b, subject);
  }

  /** What an assertion writes and what it leaves: name and email only where their scope asks, the verified mark only
      with an email, and of the appended claims only `apps`. */
  lemma AssertionFrame(dir: seq<Identity>, info: UserInfo, subject: string, scopes: seq<string>, clientIDs: set<Id>)
    ensures var r := CoarseUserInfo(dir, info, subject, scopes, clientIDs);
            && (r.Some? <==> exists i | 0 <= i < |dir| :: dir[i].subject == subject)
            && (r.Some? ==>
                  var id := Find(dir, subject).value;
                  var mailed := "email" in scopes && id.email != "";
                  && r.value.subject == subject
                  && r.value.name == (if "profile" in scopes then id.name else info.name)
                  && r.value.email == (if mailed then id.email else info.email)
                  && (r.value.emailVerified <==> mailed || info.emailVerified)
                  && r.value.claims.Keys == info.claims.Keys + {"apps"}
                  && (forall c | c in info.claims && c != "apps" :: r.value.claims[c] == info.claims[c]))
  {
  }

  /** A fresh assertion carries no claim but the documented ones, each exactly when its scope asks for it. */
  lemma OnlyEmittedClaims(dir: seq<Identity>, subject: string, scopes: seq<string>, clientIDs: set<Id>)
    ensures var r := CoarseUserInfo(dir, BLANK, subject, scopes, clientIDs);
            r.Some? ==>
              && r.value.subject == subject
              && r.value.claims.Keys == {"apps"}
              && r.value.name == (if "profile" in scopes then Find(dir, subject).value.name else "")
              && r.value.email == (if "email" in scopes then Find(dir, subject).value.email else "")
              && (r.value.emailVerified <==> r.value.email != "")
  {
  }

  /** The apps claim is strictly increasing and holds the identity's own apps and every registered client. */
  lemma AppsClaimIsExact(dir: seq<Identity>, info: UserInfo, subject: string, scopes: seq<string>, clientIDs: set<Id>)
    ensures var r := CoarseUserInfo(dir, info, subject, scopes, clientIDs);
            r.Some? ==>
              && Increasing(r.value.claims[APPS])
              && (forall app :: app in r.value.claims[APPS]
                                <==> app in Find(dir, subject).value.apps || app in clientIDs)
  {
    var r := CoarseUserInfo(dir, info, subject, scopes, clientIDs);
    if r.Some? {
      assert forall app :: app in r.value.claims[APPS] <==> app in Elements(r.value.claims[APPS]);
    }
  }
}
