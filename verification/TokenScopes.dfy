/** How the scopes of a grant move: only by narrowing, and then for every later refresh. */
module TokenScopes {
  import opened Common
  import opened TokenGraph
  import opened TokenRuns
  import opened TokenSafety

  /** The scopes a grant's record ends up with along a run: those of the last narrowing of it, if there is one. */
  function ScopesAfter(scopes: seq<string>, es: seq<Event>, n: Grant): seq<string>
    decreases |es|
  {
    if es == [] then scopes
    else ScopesAfter(if es[0].Narrow? && es[0].grant == n then es[0].scopes else scopes, es[1..], n)
  }

  /** ScopesAfter by position: nothing changes without a narrowing of the grant, and the last one decides. */
  lemma {:induction false} LastNarrowingDecides(scopes: seq<string>, es: seq<Event>, n: Grant)
    ensures (forall i | 0 <= i < |es| :: !(es[i].Narrow? && es[i].grant == n)) ==> ScopesAfter(scopes, es, n) == scopes
    ensures forall i | 0 <= i < |es| && es[i].Narrow? && es[i].grant == n
                       && (forall j | i < j < |es| :: !(es[j].Narrow? && es[j].grant == n)) ::
              ScopesAfter(scopes, es, n) == es[i].scopes
    decreases |es|
  {
    if es != [] {
      var scopes' := if es[0].Narrow? && es[0].grant == n then es[0].scopes else scopes;
      LastNarrowingDecides(scopes', es[1..], n);
      assert forall i | 0 <= i < |es| - 1 :: es[1..][i] == es[i + 1];
      forall i | 0 <= i < |es| && es[i].Narrow? && es[i].grant == n
                 && (forall j | i < j < |es| :: !(es[j].Narrow? && es[j].grant == n))
        ensures ScopesAfter(scopes, es, n) == es[i].scopes
      {
        if i == 0 {
          assert forall j | 0 <= j < |es[1..]| :: !(es[1..][j].Narrow? && es[1..][j].grant == n);
        } else {
          assert es[1..][i - 1] == es[i];
        }
      }
    }
  }

  lemma ScopesStep(w: World, e: Event, n: Grant)
    requires Inv(w) && Enabled(w, e) && n < |w.graph.records|
    ensures n < |Step(w, e).graph.records|
    ensures Step(w, e).graph.records[n].scopes ==
              if e.Narrow? && e.grant == n then e.scopes else w.graph.records[n].scopes
  {
  }

  /** A narrowing writes the scopes of one record: no token, no key and no other field or record changes. */
  lemma NarrowFrame(w: World, e: Event)
    requires Inv(w) && Enabled(w, e) && e.Narrow?
    ensures var g, g' := w.graph, Step(w, e).graph;
            && g'.tokens == g.tokens && g'.refreshers == g.refreshers && |g'.records| == |g.records|
            && (forall n | 0 <= n < |g.records| && n != e.grant :: g'.records[n] == g.records[n])
            && g'.records[e.grant].scopes == e.scopes
            && g'.records[e.grant].(scopes := g.records[e.grant].scopes) == g.records[e.grant]
  {
  }

  /** Over every run, whatever issues, rotations and revocations it holds, only narrowings move a grant's scopes. */
  lemma {:induction false} OnlyNarrowingMovesScopes(w: World, es: seq<Event>, n: Grant)
    requires Inv(w) && Legal(w, es) && n < |w.graph.records|
    ensures n < |Run(w, es).graph.records|
    ensures Run(w, es).graph.records[n].scopes == ScopesAfter(w.graph.records[n].scopes, es, n)
    decreases |es|
  {
    if es != [] {
      StepKeepsInv(w, es[0]);
      ScopesStep(w, es[0], n);
      OnlyNarrowingMovesScopes(Step(w, es[0]), es[1..], n);
    }
  }

  lemma RotationCarriesScopes(w: World, e: Event)
    requires Inv(w) && Enabled(w, e) && e.Tokens? && e.current != "" && Succeeds(w.graph, e)
    ensures var n := w.graph.refreshers[e.current];
            var g' := Step(w, e).graph;
            && n < |g'.records| && e.newToken in g'.tokens
            && g'.tokens[e.newToken].scopes == g'.records[n].scopes == w.graph.records[n].scopes
  {
  }

  /** A rotation hands out, and leaves in the record, the scopes the grant had at any earlier moment exactly if the
      last narrowing of the grant since then, by whichever request, set those same scopes or there was none. */
  lemma RotationKeepsScopesExactlyWhen(w: World, n: Grant, es: seq<Event>, w': World, e: Event)
    requires Inv(w) && n < |w.graph.records| && Reaches(w, es, w')
    requires Enabled(w', e) && e.Tokens? && e.current != "" && Succeeds(w'.graph, e)
    requires w'.graph.refreshers[e.current] == n
    ensures var before := w.graph.records[n].scopes;
            var g' := Step(w', e).graph;
            && n < |g'.records| && e.newToken in g'.tokens
            && g'.tokens[e.newToken].scopes == g'.records[n].scopes
            && (g'.tokens[e.newToken].scopes == before <==> ScopesAfter(before, es, n) == before)
  {
    OnlyNarrowingMovesScopes(w, es, n);
    RotationCarriesScopes(w', e);
  }

  lemma NarrowedRunIsLegal(w: World, refresh: Id, scopes: seq<string>)
    returns (fetched: World, checked: World, narrowed: World)
    requires Inv(w) && refresh in w.graph.refreshers
    requires Within(scopes, w.graph.records[w.graph.refreshers[refresh]].scopes)
    ensures var n := w.graph.refreshers[refresh];
            && Reaches(w, [Fetch(refresh)], fetched)
            && Reaches(fetched, [CheckScopes(refresh, n, scopes)], checked)
            && Reaches(checked, [Narrow(n, scopes)], narrowed)
            && narrowed.graph == SetScopes(w.graph, n, scopes)
            && (refresh, n) in narrowed.hist.fetched && narrowed.hist.drawn == w.hist.drawn
  {
    var n := w.graph.refreshers[refresh];
    fetched := World(w.graph, w.hist.(fetched := w.hist.fetched + {(refresh, n)}));
    OneStep(w, Fetch(refresh), fetched);
    checked := World(w.graph, fetched.hist.(pending := fetched.hist.pending + {(n, scopes)}));
    OneStep(fetched, CheckScopes(refresh, n, scopes), checked);
    narrowed := World(SetScopes(w.graph, n, scopes), checked.hist);
    OneStep(checked, Narrow(n, scopes), narrowed);
  }

  /** One ordinary refresh that asks for less loses the rest for good: the new refresh token's record has the
      narrowed scopes, where section 6 of RFC 6749 has it keep those of the token presented. */
  lemma NarrowedRotationLosesScopes(w: World, refresh: Id, scopes: seq<string>, newRefresh: Id, newToken: Id, now: Time)
    returns (fetched: World, checked: World, narrowed: World, rotated: World)
    requires Inv(w) && refresh in w.graph.refreshers
    requires w.graph.records[w.graph.refreshers[refresh]].expiration >= now
    requires Within(scopes, w.graph.records[w.graph.refreshers[refresh]].scopes)
    requires Fresh(w.hist, newRefresh) && Fresh(w.hist, newToken) && newRefresh != newToken
    ensures var n := w.graph.refreshers[refresh];
            && Reaches(w, [Fetch(refresh)], fetched)
            && Reaches(fetched, [CheckScopes(refresh, n, scopes)], checked)
            && Reaches(checked, [Narrow(n, scopes)], narrowed)
            && Reaches(narrowed, [Tokens(FromRefresh(n), refresh, newRefresh, newToken, now)], rotated)
            && newRefresh in rotated.graph.refreshers && rotated.graph.refreshers[newRefresh] == n
            && n < |rotated.graph.records| && rotated.graph.records[n].scopes == scopes
            && newToken in rotated.graph.tokens && rotated.graph.tokens[newToken].scopes == scopes
  {
    var n := w.graph.refreshers[refresh];
    fetched, checked, narrowed := NarrowedRunIsLegal(w, refresh, scopes);
    var e := Tokens(FromRefresh(n), refresh, newRefresh, newToken, now);
    FirstRotationSucceeds(narrowed, refresh, newRefresh, newToken, now);
    RotationCarriesScopes(narrowed, e);
    rotated := Step(narrowed, e);
    OneStep(narrowed, e, rotated);
  }

  lemma BothChecksPass(w: World, refresh: Id, first: seq<string>, second: seq<string>)
    returns (fetched: World, half: World, checked: World)
    requires Inv(w) && refresh in w.graph.refreshers
    requires Within(first, w.graph.records[w.graph.refreshers[refresh]].scopes)
    requires Within(second, w.graph.records[w.graph.refreshers[refresh]].scopes)
    ensures var n := w.graph.refreshers[refresh];
            && Reaches(w, [Fetch(refresh)], fetched)
            && Reaches(fetched, [CheckScopes(refresh, n, first)], half)
            && Reaches(half, [CheckScopes(refresh, n, second)], checked)
            && checked.graph == w.graph
            && (n, first) in checked.hist.pending && (n, second) in checked.hist.pending
  {
    var n := w.graph.refreshers[refresh];
    fetched := World(w.graph, w.hist.(fetched := w.hist.fetched + {(refresh, n)}));
    OneStep(w, Fetch(refresh), fetched);
    half := World(w.graph, fetched.hist.(pending := fetched.hist.pending + {(n, first)}));
    OneStep(fetched, CheckScopes(refresh, n, first), half);
    checked := World(w.graph, half.hist.(pending := half.hist.pending + {(n, second)}));
    OneStep(half, CheckScopes(refresh, n, second), checked);
  }

  /** Two narrowings checked before either is applied: the later one wins, even where it widens the earlier. */
  lemma LaterNarrowingWins(w: World, refresh: Id, first: seq<string>, second: seq<string>)
    returns (fetched: World, half: World, checked: World, narrowed: World, after: World)
    requires Inv(w) && refresh in w.graph.refreshers
    requires Within(first, w.graph.records[w.graph.refreshers[refresh]].scopes)
    requires Within(second, w.graph.records[w.graph.refreshers[refresh]].scopes)
    ensures var n := w.graph.refreshers[refresh];
            && Reaches(w, [Fetch(refresh)], fetched)
            && Reaches(fetched, [CheckScopes(refresh, n, first)], half)
            && Reaches(half, [CheckScopes(refresh, n, second)], checked)
            && Reaches(checked, [Narrow(n, first)], narrowed)
            && Reaches(narrowed, [Narrow(n, second)], after)
            && n < |narrowed.graph.records| == |after.graph.records|
            && narrowed.graph.records[n].scopes == first
            && after.graph.records[n].scopes == second
  {
    var n := w.graph.refreshers[refresh];
    fetched, half, checked := BothChecksPass(w, refresh, first, second);
    narrowed := World(SetScopes(w.graph, n, first), checked.hist);
    OneStep(checked, Narrow(n, first), narrowed);
    after := World(SetScopes(narrowed.graph, n, second), checked.hist);
    OneStep(narrowed, Narrow(n, second), after);
  }
}
