/** clients.go and the loading half of clientsfile.go. */
module Clients {
  import opened Common

  const AUTH_BASIC: string := "client_secret_basic"
  const AUTH_NONE: string := "none"

  const FILE_GRANTS: seq<string> :=
    ["authorization_code", "refresh_token", "urn:ietf:params:oauth:grant-type:device_code"]

  datatype Tile = Tile(name: string, description: string, iconURL: string, launchURL: string)

  datatype Client = Client(
    id: Id,
    secret: string,
    redirectURIs: seq<string>,
    grantTypes: seq<string>,
    authMethod: string,
    tile: Tile)
  {
    predicate IsPublic() { authMethod == AUTH_NONE }
  }

  const EXAMPLE_ID: Id := "devedge-idp-example"

  /** seedClients: the one compiled-in client. */
  function SeedClients(redirectURIs: seq<string>): map<Id, Client> {
    map[EXAMPLE_ID := Client(
          EXAMPLE_ID, "dev-secret",
          if redirectURIs == [] then ["http://127.0.0.1:0/callback"] else redirectURIs,
          FILE_GRANTS, AUTH_BASIC,
          Tile("devedge IdP Example", "The seeded example app identity.", "", ""))]
  }

  /** One entry of the clients file. */
  datatype FileClient = FileClient(
    clientID: Id,
    clientSecret: string,
    tokenEndpointAuthMethod: string,
    redirectURIs: seq<string>,
    tile: Tile)

  datatype EntryError = MissingSecret | PublicWithSecret | UnsupportedMethod(name: string)

  /** authMethodFromFile. */
  function AuthMethodFromFile(fc: FileClient): Result<string, EntryError> {
    if fc.tokenEndpointAuthMethod == "" || fc.tokenEndpointAuthMethod == AUTH_BASIC then
      if fc.clientSecret == "" then Err(MissingSecret) else Ok(AUTH_BASIC)
    else if fc.tokenEndpointAuthMethod == AUTH_NONE then
      if fc.clientSecret != "" then Err(PublicWithSecret) else Ok(AUTH_NONE)
    else
      Err(UnsupportedMethod(fc.tokenEndpointAuthMethod))
  }

  /** What a read of the clients file yields. */
  datatype Content = Unreadable | Unparseable | Entries(entries: seq<FileClient>)

  datatype LoadError =
    | ReadFailed
    | ParseFailed
    | EmptyClientID(entry: nat)
    | BadEntry(entry: nat, clientID: Id, error: EntryError)

  predicate Acceptable(fc: FileClient) {
    fc.clientID != "" && AuthMethodFromFile(fc).Ok?
  }

  function Built(fc: FileClient): Client
    requires Acceptable(fc)
  {
    Client(fc.clientID, fc.clientSecret, fc.redirectURIs, FILE_GRANTS, AuthMethodFromFile(fc).value, fc.tile)
  }

  function Complaint(fc: FileClient, entry: nat): LoadError
    requires !Acceptable(fc)
  {
    if fc.clientID == "" then EmptyClientID(entry)
    else BadEntry(entry, fc.clientID, AuthMethodFromFile(fc).error)
  }

  /** The index of the first entry that is not acceptable, or the number of entries. */
  function FirstBad(fcs: seq<FileClient>): (k: nat)
    ensures k <= |fcs|
    ensures forall i | 0 <= i < k :: Acceptable(fcs[i])
    ensures k < |fcs| ==> !Acceptable(fcs[k])
  {
    if fcs == [] || !Acceptable(fcs[0]) then 0 else 1 + FirstBad(fcs[1..])
  }

  /** What loading a file means: every entry built in order, or the complaint about the first bad one. */
  function Load(content: Content): Result<seq<Client>, LoadError> {
    match content
    case Unreadable => Err(ReadFailed)
    case Unparseable => Err(ParseFailed)
    case Entries(fcs) =>
      var k := FirstBad(fcs);
      if k < |fcs| then Err(Complaint(fcs[k], k))
      else Ok(seq(|fcs|, i requires 0 <= i < |fcs| => Built(fcs[i])))
  }

  /** LoadClientsFile. */
  method LoadClientsFile(content: Content) returns (r: Result<seq<Client>, LoadError>)
    ensures r == Load(content)
  {
    match content {
      case Unreadable => return Err(ReadFailed);
      case Unparseable => return Err(ParseFailed);
      case Entries(fcs) =>
        var clients: seq<Client> := [];
        for i := 0 to |fcs|
          invariant i <= FirstBad(fcs)
          invariant |clients| == i && forall j | 0 <= j < i :: Acceptable(fcs[j]) && clients[j] == Built(fcs[j])
        {
          var fc := fcs[i];
          if fc.clientID == "" {
            return Err(EmptyClientID(i));
          }
          var authMethod := AuthMethodFromFile(fc);
          if authMethod.Err? {
            return Err(BadEntry(i, fc.clientID, authMethod.error));
          }
          clients := clients + [Client(fc.clientID, fc.clientSecret, fc.redirectURIs, FILE_GRANTS,
                                       authMethod.value, fc.tile)];
        }
        assert Load(content).value == clients;
        return Ok(clients);
    }
  }

  /** The pairs of method and secret that make a client, and what kind each one makes. */
  lemma AcceptableMeans(fc: FileClient)
    ensures Acceptable(fc) <==>
              && fc.clientID != ""
              && (if fc.clientSecret == "" then fc.tokenEndpointAuthMethod == "none"
                  else fc.tokenEndpointAuthMethod in {"", "client_secret_basic"})
    ensures Acceptable(fc) ==>
              && (Built(fc).IsPublic() <==> Built(fc).secret == "")
              && Built(fc).authMethod == (if fc.clientSecret == "" then "none" else "client_secret_basic")
  {
  }

  /** What is wrong with an entry that is not acceptable: a missing name comes first, and then the method and secret. */
  lemma ComplaintNamesTheFault(fc: FileClient, entry: nat)
    requires !Acceptable(fc)
    ensures var complaint := Complaint(fc, entry);
            var secretless := fc.clientSecret == "";
            && complaint.entry == entry
            && (complaint.EmptyClientID? <==> fc.clientID == "")
            && (fc.clientID != "" ==>
                  && complaint.BadEntry? && complaint.clientID == fc.clientID
                  && (complaint.error == MissingSecret <==>
                        secretless && fc.tokenEndpointAuthMethod in {"", "client_secret_basic"})
                  && (complaint.error == PublicWithSecret <==> !secretless && fc.tokenEndpointAuthMethod == "none")
                  && (complaint.error.UnsupportedMethod? ==>
                        && complaint.error.name == fc.tokenEndpointAuthMethod
                        && fc.tokenEndpointAuthMethod !in {"", "client_secret_basic", "none"}))
  {
  }

  /** The seed is one confidential client that may use the same three grants as every client of a file. */
  lemma SeedIsTheExample(redirectURIs: seq<string>)
    ensures var seed := SeedClients(redirectURIs);
            && seed.Keys == {"devedge-idp-example"}
            && var c := seed["devedge-idp-example"];
            && c.id == "devedge-idp-example" && c.secret == "dev-secret" && c.authMethod == "client_secret_basic"
            && c.redirectURIs == (if redirectURIs == [] then ["http://127.0.0.1:0/callback"] else redirectURIs)
            && c.grantTypes ==
                 ["authorization_code", "refresh_token", "urn:ietf:params:oauth:grant-type:device_code"]
  {
  }

  /** All or nothing: a file loads exactly if every entry is acceptable, and then yields one client an entry,
      in order, each named, with the method its secret calls for and the three grants. */
  lemma LoadingIsAllOrNothing(content: Content)
    ensures Load(content).Ok? <==> content.Entries? && forall fc | fc in content.entries :: Acceptable(fc)
    ensures Load(content).Ok? ==>
              var cs := Load(content).value;
              && |cs| == |content.entries|
              && (forall i | 0 <= i < |cs| ::
                    && cs[i].id == content.entries[i].clientID != ""
                    && cs[i].secret == content.entries[i].clientSecret
                    && cs[i].redirectURIs == content.entries[i].redirectURIs
                    && cs[i].tile == content.entries[i].tile
                    && cs[i].grantTypes ==
                         ["authorization_code", "refresh_token", "urn:ietf:params:oauth:grant-type:device_code"]
                    && cs[i].authMethod == (if cs[i].secret == "" then "none" else "client_secret_basic"))
    ensures Load(content) == Err(ReadFailed) <==> content.Unreadable?
    ensures Load(content) == Err(ParseFailed) <==> content.Unparseable?
    ensures content.Entries? && Load(content).Err? ==>
              exists k | 0 <= k < |content.entries| ::
                && !Acceptable(content.entries[k])
                && (forall i | 0 <= i < k :: Acceptable(content.entries[i]))
                && Load(content).error == Complaint(content.entries[k], k)
  {
    if content.Entries? {
      var fcs := content.entries;
      var k := FirstBad(fcs);
      if k < |fcs| {
        assert fcs[k] in fcs;
      } else {
        forall i | 0 <= i < |fcs|
          ensures Built(fcs[i]).authMethod == (if fcs[i].clientSecret == "" then "none" else "client_secret_basic")
        {
          AcceptableMeans(fcs[i]);
        }
      }
    }
  }
}
