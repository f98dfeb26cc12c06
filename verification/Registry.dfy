/** The client registry: a seed overlaid by reloads of the clients file. */
module Registry {
  import opened Common
  import opened Clients

  type Clientele = map<Id, Client>

  /** Put every client of a file into a registry, in file order. */
  function Overlay(reg: Clientele, cs: seq<Client>): Clientele
    decreases |cs|
  {
    if cs == [] then reg else Overlay(reg[cs[0].id := cs[0]], cs[1..])
  }

  function Keep(reg: Clientele, ids: set<Id>): Clientele {
    map id | id in reg && id in ids :: reg[id]
  }

  /** ReplaceFileClients. */
  function Replace(reg: Clientele, seedIDs: set<Id>, cs: seq<Client>): Clientele {
    Overlay(Keep(reg, seedIDs), cs)
  }

  /** What a file declares on its own. */
  function Declared(cs: seq<Client>): Clientele {
    Overlay(map[], cs)
  }

  lemma {:induction false} OverlayIsUnion(reg: Clientele, cs: seq<Client>)
    ensures Overlay(reg, cs) == reg + Declared(cs)
    decreases |cs|
  {
    if cs != [] {
      OverlayIsUnion(reg[cs[0].id := cs[0]], cs[1..]);
      OverlayIsUnion(map[cs[0].id := cs[0]], cs[1..]);
      assert (map[])[cs[0].id := cs[0]] == map[cs[0].id := cs[0]];
    }
  }

  predicate Declares(cs: seq<Client>, id: Id) {
    exists i | 0 <= i < |cs| :: cs[i].id == id
  }

  /** A file declares the ids of its entries; where an id is repeated the last entry counts. */
  lemma {:induction false} LastEntryWins(cs: seq<Client>, id: Id)
    ensures id in Declared(cs) <==> Declares(cs, id)
    ensures forall i | 0 <= i < |cs| && cs[i].id == id && (forall j | i < j < |cs| :: cs[j].id != id) ::
              id in Declared(cs) && Declared(cs)[id] == cs[i]
    decreases |cs|
  {
    if cs != [] {
      OverlayIsUnion(map[cs[0].id := cs[0]], cs[1..]);
      assert (map[])[cs[0].id := cs[0]] == map[cs[0].id := cs[0]];
      LastEntryWins(cs[1..], id);
      assert forall i | 1 <= i < |cs| :: cs[i] == cs[1..][i - 1];
      if id in Declared(cs[1..]) {
        var i :| 0 <= i < |cs[1..]| && cs[1..][i].id == id;
        assert cs[i + 1].id == id;
      }
      forall i | 0 <= i < |cs| && cs[i].id == id && (forall j | i < j < |cs| :: cs[j].id != id)
        ensures id in Declared(cs) && Declared(cs)[id] == cs[i]
      {
        if i == 0 {
          assert forall j | 0 <= j < |cs[1..]| :: cs[1..][j].id != id;
        } else {
          assert cs[1..][i - 1].id == id;
          assert forall j | i - 1 < j < |cs[1..]| :: cs[1..][j] == cs[j + 1];
        }
      }
    }
  }

  // ----- any number of reloads ---------------------------------------------------

  /** The registry after the seed and a list of accepted files, oldest first. */
  function Reloads(seed: Clientele, loads: seq<seq<Client>>): Clientele {
    if loads == [] then seed
    else Replace(Reloads(seed, loads[..|loads| - 1]), seed.Keys, loads[|loads| - 1])
  }

  /** The latest declaration of each id over all files so far. */
  function EverDeclared(loads: seq<seq<Client>>): Clientele {
    if loads == [] then map[]
    else EverDeclared(loads[..|loads| - 1]) + Declared(loads[|loads| - 1])
  }

  /** Overlaying the kept part of a registry, and keeping part of what was overlaid. */
  lemma KeepThenOverlay(seed: Clientele, ever: Clientele, d: Clientele)
    ensures Keep(seed + ever, seed.Keys) + d == Keep(seed + (ever + d), seed.Keys) + d
    ensures Keep(Keep(seed + (ever + d), seed.Keys) + d, seed.Keys) == Keep(seed + (ever + d), seed.Keys)
  {
  }

  lemma {:induction false} KeptDeclarations(seed: Clientele, loads: seq<seq<Client>>)
    ensures Keep(Reloads(seed, loads), seed.Keys) == Keep(seed + EverDeclared(loads), seed.Keys)
    decreases |loads|, 1
  {
    if loads != [] {
      ReloadsClosedForm(seed, loads);
      KeepThenOverlay(seed, EverDeclared(loads[..|loads| - 1]), Declared(loads[|loads| - 1]));
    }
  }

  /** Closed form, with no proviso: what is not seeded comes from the last file alone, while a seeded id holds
      the latest declaration any file ever made of it. */
  lemma {:induction false} ReloadsClosedForm(seed: Clientele, loads: seq<seq<Client>>)
    requires loads != []
    ensures Reloads(seed, loads) ==
              Keep(seed + EverDeclared(loads), seed.Keys) + Declared(loads[|loads| - 1])
    decreases |loads|, 0
  {
    var before := loads[..|loads| - 1];
    OverlayIsUnion(Keep(Reloads(seed, before), seed.Keys), loads[|loads| - 1]);
    KeptDeclarations(seed, before);
    KeepThenOverlay(seed, EverDeclared(before), Declared(loads[|loads| - 1]));
  }

  predicate RedeclaresNoSeed(seed: Clientele, cs: seq<Client>) {
    forall c | c in cs :: c.id !in seed
  }

  lemma {:induction false} EverDeclaredAvoids(seed: Clientele, loads: seq<seq<Client>>)
    requires forall cs | cs in loads :: RedeclaresNoSeed(seed, cs)
    ensures EverDeclared(loads).Keys !! seed.Keys
    decreases |loads|
  {
    if loads != [] {
      var last := loads[|loads| - 1];
      EverDeclaredAvoids(seed, loads[..|loads| - 1]);
      assert last in loads;
      forall id | id in seed ensures id !in Declared(last) {
        LastEntryWins(last, id);
      }
    }
  }

  /** While no file redeclares a seeded id, the registry is the seed overlaid with the last file,
      whatever was loaded before. */
  lemma EarlierFilesAreForgotten(seed: Clientele, loads: seq<seq<Client>>)
    requires loads != [] && forall cs | cs in loads :: RedeclaresNoSeed(seed, cs)
    ensures Reloads(seed, loads) == seed + Declared(loads[|loads| - 1])
  {
    ReloadsClosedForm(seed, loads);
    EverDeclaredAvoids(seed, loads);
  }

  /** Seeded ids are never lost, but a seeded client keeps its seeded definition exactly if the latest
      declaration any file made of it, if there is one, is that definition. */
  lemma SeedSurvivesExactlyWhen(seed: Clientele, loads: seq<seq<Client>>)
    ensures seed.Keys <= Reloads(seed, loads).Keys
    ensures forall id | id in seed ::
              Reloads(seed, loads)[id] == seed[id]
              <==> (id in EverDeclared(loads) ==> EverDeclared(loads)[id] == seed[id])
  {
    if loads != [] {
      ReloadsClosedForm(seed, loads);
    }
  }

  /** Files that leave an id out keep its latest declaration. */
  lemma {:induction false} DeclarationIsKept(loads: seq<seq<Client>>, later: seq<seq<Client>>, id: Id)
    requires id in EverDeclared(loads) && forall f | f in later :: !Declares(f, id)
    ensures id in EverDeclared(loads + later) && EverDeclared(loads + later)[id] == EverDeclared(loads)[id]
    decreases |later|
  {
    if later == [] {
      assert loads + later == loads;
    } else {
      var last := later[|later| - 1];
      assert last in later;
      LastEntryWins(last, id);
      DeclarationIsKept(loads, later[..|later| - 1], id);
      assert (loads + later)[..|loads + later| - 1] == loads + later[..|later| - 1];
    }
  }

  /** A file that redeclares a seeded client replaces it, whatever was loaded before and wherever the entry stands,
      and no later file that leaves the id out restores the seed. */
  lemma RedeclaredSeedSticks(seed: Clientele, before: seq<seq<Client>>, cs: seq<Client>, later: seq<seq<Client>>, id: Id)
    requires id in seed && Declares(cs, id) && forall f | f in later :: !Declares(f, id)
    ensures id in Declared(cs) && id in Reloads(seed, before + [cs] + later)
    ensures Reloads(seed, before + [cs] + later)[id] == Declared(cs)[id]
  {
    var loads := before + [cs] + later;
    LastEntryWins(cs, id);
    assert (before + [cs])[..|before + [cs]| - 1] == before;
    DeclarationIsKept(before + [cs], later, id);
    ReloadsClosedForm(seed, loads);
    var last := loads[|loads| - 1];
    LastEntryWins(last, id);
    if later != [] {
      assert last == later[|later| - 1] && last in later;
    } else {
      assert last == cs;
    }
  }

  // ----- secrets --------------------------------------------------------------------

  datatype Authorization = Authorized | ClientNotFound | ClientIsPublic | InvalidSecret

  /** AuthorizeClientIDSecret. */
  function Authorize(reg: Clientele, id: Id, secret: string): Authorization {
    if id !in reg then ClientNotFound
    else if reg[id].IsPublic() then ClientIsPublic
    else if reg[id].secret != secret then InvalidSecret
    else Authorized
  }

  /** The three refusals: an unknown client, then a public one, then a wrong secret. */
  lemma RefusedExactlyWhen(reg: Clientele, id: Id, secret: string)
    ensures var r := Authorize(reg, id, secret);
            && (r == ClientNotFound <==> id !in reg)
            && (r == ClientIsPublic <==> id in reg && reg[id].authMethod == "none")
            && (r == InvalidSecret <==> id in reg && reg[id].authMethod != "none" && reg[id].secret != secret)
  {
  }

  /** Keys are client ids, and exactly the public clients have no secret. */
  predicate SoundRegistry(reg: Clientele) {
    forall id | id in reg :: reg[id].id == id && (reg[id].IsPublic() <==> reg[id].secret == "")
  }

  /** The accepted files of a list of file contents, oldest first. */
  function Accepted(files: seq<Content>): seq<seq<Client>> {
    if files == [] then []
    else
      var before := Accepted(files[..|files| - 1]);
      var last := Load(files[|files| - 1]);
      if last.Ok? then before + [last.value] else before
  }

  lemma {:induction false} OverlayIsSound(reg: Clientele, cs: seq<Client>)
    requires SoundRegistry(reg)
    requires forall c | c in cs :: c.IsPublic() <==> c.secret == ""
    ensures SoundRegistry(Overlay(reg, cs))
    decreases |cs|
  {
    if cs != [] {
      OverlayIsSound(reg[cs[0].id := cs[0]], cs[1..]);
    }
  }

  lemma {:induction false} ReloadsAreSound(seed: Clientele, files: seq<Content>)
    requires SoundRegistry(seed)
    ensures SoundRegistry(Reloads(seed, Accepted(files)))
    decreases |files|
  {
    if files != [] {
      var before := Accepted(files[..|files| - 1]);
      ReloadsAreSound(seed, files[..|files| - 1]);
      LoadingIsAllOrNothing(files[|files| - 1]);
      if Load(files[|files| - 1]).Ok? {
        var cs := Load(files[|files| - 1]).value;
        assert Accepted(files)[..|before|] == before;
        OverlayIsSound(Keep(Reloads(seed, before), seed.Keys), cs);
      }
    }
  }

  /** Over the shipped seed and any files, good or bad: a secret authenticates exactly a registered
      confidential client whose own, non-empty, secret it is. */
  lemma AuthorizedExactlyWhen(redirectURIs: seq<string>, files: seq<Content>, id: Id, secret: string)
    ensures var reg := Reloads(SeedClients(redirectURIs), Accepted(files));
            Authorize(reg, id, secret) == Authorized
            <==> id in reg && !reg[id].IsPublic() && secret == reg[id].secret && secret != ""
  {
    ReloadsAreSound(SeedClients(redirectURIs), files);
  }
}
