/** identities.go: the built-in developer identities. */
module Directory {
  import opened Common

  /** Everything from `tenant` on is stored but never asserted. */
  datatype Identity = Identity(
    subject: string,
    name: string,
    email: string,
    apps: seq<string>,
    tenant: string,
    roles: seq<string>,
    groups: seq<string>)

  const SEEDED_APPS: seq<string> := ["devedge-idp-example"]

  const IDENTITIES: seq<Identity> := [
    Identity("alice", "Alice Admin", "alice@dev.test", SEEDED_APPS, "tenant-a", ["admin"], ["platform"]),
    Identity("bob", "Bob Viewer", "bob@dev.test", SEEDED_APPS, "tenant-a", ["viewer"], ["platform"]),
    Identity("carol", "Carol (tenant-b)", "carol@dev.test", SEEDED_APPS, "tenant-b", ["viewer"], ["partners"])
  ]

  /** The first identity of a directory with a given subject. */
  function Find(dir: seq<Identity>, subject: string): (r: Option<Identity>)
    ensures r.Some? <==> exists i | 0 <= i < |dir| :: dir[i].subject == subject
    ensures r.Some? ==> r.value in dir && r.value.subject == subject
  {
    if dir == [] then None
    else if dir[0].subject == subject then Some(dir[0])
    else Find(dir[1..], subject)
  }

  predicate IsBuiltIn(subject: string) {
    Find(IDENTITIES, subject).Some?
  }

  lemma {:induction false} FindSkips(dir: seq<Identity>, subject: string, i: nat)
    requires i <= |dir| && forall j | 0 <= j < i :: dir[j].subject != subject
    ensures Find(dir, subject) == Find(dir[i..], subject)
  {
    if i > 0 {
      FindSkips(dir[1..], subject, i - 1);
      assert dir[1..][i - 1..] == dir[i..];
    }
  }

  /** Whatever else a directory holds, its first entry of a subject is the one found. */
  lemma FirstEntryIsFound(dir: seq<Identity>, subject: string, i: nat)
    requires i < |dir| && dir[i].subject == subject && forall j | 0 <= j < i :: dir[j].subject != subject
    ensures Find(dir, subject) == Some(dir[i])
  {
    FindSkips(dir, subject, i);
  }

  /** Who can log in, and the coarse profile each is known by. */
  lemma BuiltInIdentities(subject: string)
    ensures IsBuiltIn(subject) <==> subject in {"alice", "bob", "carol"}
    ensures subject == "alice" ==> Find(IDENTITIES, subject) == Some(IDENTITIES[0])
    ensures subject == "bob" ==> Find(IDENTITIES, subject) == Some(IDENTITIES[1])
    ensures subject == "carol" ==> Find(IDENTITIES, subject) == Some(IDENTITIES[2])
    ensures forall id | id in IDENTITIES :: id.email != "" && id.apps == ["devedge-idp-example"]
  {
    assert IDENTITIES[0].subject == "alice" && IDENTITIES[1].subject == "bob" && IDENTITIES[2].subject == "carol";
    if i: nat :| i < |IDENTITIES| && IDENTITIES[i].subject == subject {
      FirstEntryIsFound(IDENTITIES, subject, i);
    }
  }

  /** identityBySubject, over any directory. */
  method IdentityBySubject(dir: seq<Identity>, subject: string) returns (r: Option<Identity>)
    ensures r == Find(dir, subject)
  {
    for i := 0 to |dir|
      invariant forall j | 0 <= j < i :: dir[j].subject != subject
    {
      if dir[i].subject == subject {
        FindSkips(dir, subject, i);
        return Some(dir[i]);
      }
    }
    return None;
  }
}
