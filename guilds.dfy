/** Guild settings of guilds.go: the persisted settings list with its upsert, the
    registry of known guilds, the setters, and the role and channel lookups. */
module Guilds {
  import opened Wrappers

  /** The team role names a managed guild must have. */
  const TeamRoles: seq<string> := ["mystic", "valor", "instinct", "kith"]

  /** The settings of one guild, as stored in the settings file. */
  datatype GuildSetting = GuildSetting(
    name: string,
    id: string,
    managed: bool,
    teams: bool,
    botPrefix: string,
    welcome: string,
    goodbye: string)

  datatype Role = Role(id: string, name: string)

  datatype Channel = Channel(id: string, name: string)

  /** The errors the lookups return: the missing role or channel, by name. */
  datatype GuildError = MissingRole(name: string) | MissingChannel(name: string)

  /** IsValidTeam: whether the text is exactly one of the team names. */
  method IsValidTeam(s: string) returns (b: bool)
    ensures b <==> s == "mystic" || s == "valor" || s == "instinct" || s == "kith"
  {
    for i := 0 to |TeamRoles|
      invariant forall j :: 0 <= j < i ==> TeamRoles[j] != s
    {
      if TeamRoles[i] == s {
        return true;
      }
    }
    assert TeamRoles[0] == "mystic" && TeamRoles[1] == "valor" && TeamRoles[2] == "instinct" && TeamRoles[3] == "kith";
    return false;
  }

  /** The position of the first setting with the ID, if any. */
  function FirstIndex(gs: seq<GuildSetting>, id: string): (r: Option<nat>)
    ensures r.Some? ==> r.value < |gs| && gs[r.value].id == id && forall j :: 0 <= j < r.value ==> gs[j].id != id
    ensures r.None? ==> forall j :: 0 <= j < |gs| ==> gs[j].id != id
  {
    if |gs| == 0 then None
    else if gs[0].id == id then Some(0)
    else match FirstIndex(gs[1..], id)
      case None => None
      case Some(i) => Some(i + 1)
  }

  /** The list after storing `s` under `id`: the first entry with that ID replaced, or `s`
      appended when there is none. */
  function Upsert(gs: seq<GuildSetting>, id: string, s: GuildSetting): seq<GuildSetting>
  {
    match FirstIndex(gs, id)
    case Some(i) => gs[i := s]
    case None => gs + [s]
  }

  /** The setting the list holds for an ID: its first entry with that ID. */
  function Lookup(gs: seq<GuildSetting>, id: string): Option<GuildSetting>
  {
    match FirstIndex(gs, id)
    case Some(i) => Some(gs[i])
    case None => None
  }

  /** No two entries share an ID. */
  predicate UniqueIds(gs: seq<GuildSetting>)
  {
    forall i, j :: 0 <= i < j < |gs| ==> gs[i].id != gs[j].id
  }

  /** An existing ID keeps the length and overwrites in place; a new one appends. Every
      other position is unchanged. */
  lemma UpsertShape(gs: seq<GuildSetting>, id: string, s: GuildSetting)
    ensures Lookup(gs, id).Some? ==> |Upsert(gs, id, s)| == |gs|
    ensures Lookup(gs, id).None? ==> Upsert(gs, id, s) == gs + [s]
    ensures forall j :: 0 <= j < |gs| && gs[j].id != id ==> Upsert(gs, id, s)[j] == gs[j]
  {
  }

  /** After storing a setting under its own ID, looking the ID up finds it and every other
      ID finds what it found before. */
  lemma UpsertLookup(gs: seq<GuildSetting>, s: GuildSetting, k: string)
    ensures Lookup(Upsert(gs, s.id, s), s.id) == Some(s)
    ensures k != s.id ==> Lookup(Upsert(gs, s.id, s), k) == Lookup(gs, k)
  {
    var r := Upsert(gs, s.id, s);
    match FirstIndex(gs, s.id)
    case Some(i) =>
      assert forall j :: 0 <= j < i ==> r[j].id != s.id;
      LookupAgree(gs, r, k, s.id);
    case None =>
      assert forall j :: 0 <= j < |gs| ==> r[j].id != s.id;
      assert r[|gs|] == s;
      LookupAgree(gs, r, k, s.id);
  }

  /** Two lists that agree on every entry whose ID is not `id`, where `r` may have one
      extra entry at the end, agree on the lookup of every other ID. */
  lemma LookupAgree(gs: seq<GuildSetting>, r: seq<GuildSetting>, k: string, id: string)
    requires |r| == |gs| || |r| == |gs| + 1
    requires forall j :: 0 <= j < |gs| ==> (gs[j].id == id <==> r[j].id == id)
    requires forall j :: 0 <= j < |gs| && gs[j].id != id ==> r[j] == gs[j]
    requires |r| == |gs| + 1 ==> r[|gs|].id == id
    ensures k != id ==> Lookup(r, k) == Lookup(gs, k)
  {
    if k != id {
      match FirstIndex(gs, k)
      case Some(i) =>
        assert r[i] == gs[i];
        assert forall j :: 0 <= j < i ==> r[j].id != k;
        FirstIndexUnique(r, k, i);
      case None =>
        assert forall j :: 0 <= j < |r| ==> r[j].id != k;
    }
  }

  lemma FirstIndexUnique(gs: seq<GuildSetting>, k: string, i: nat)
    requires i < |gs| && gs[i].id == k && forall j :: 0 <= j < i ==> gs[j].id != k
    ensures FirstIndex(gs, k) == Some(i)
  {
  }

  /** Storing a setting under its own ID keeps the IDs unique, and storing it twice is the
      same as storing it once. */
  lemma {:induction false} UpsertUnique(gs: seq<GuildSetting>, s: GuildSetting)
    requires UniqueIds(gs)
    ensures UniqueIds(Upsert(gs, s.id, s))
    ensures Upsert(Upsert(gs, s.id, s), s.id, s) == Upsert(gs, s.id, s)
  {
    var r := Upsert(gs, s.id, s);
    match FirstIndex(gs, s.id)
    case Some(i) =>
      assert r[i] == s;
      FirstIndexUnique(r, s.id, i);
      assert r[i := s] == r;
    case None =>
      assert r[|gs|] == s;
      assert forall j :: 0 <= j < |gs| ==> r[j].id != s.id;
      FirstIndexUnique(r, s.id, |gs|);
      assert r[|gs| := s] == r;
  }

  /** The settings copied from a guild: the live name overrides the stored one only when
      it is not empty. */
  function Synced(s: GuildSetting, liveName: string): (r: GuildSetting)
    ensures r.name == if liveName != "" then liveName else s.name
    ensures r.(name := s.name) == s
  {
    if liveName != "" then s.(name := liveName) else s
  }

  /** A guild the bot is in: the live guild's ID, name, roles and channels, and the bot's
      settings for it. */
  class Guild {
    const id: string
    var name: string
    var roles: seq<Role>
    var channels: seq<Channel>
    var settings: GuildSetting

    constructor (id: string, name: string, roles: seq<Role>, channels: seq<Channel>, settings: GuildSetting)
      ensures this.id == id && this.name == name && this.roles == roles && this.channels == channels
      ensures this.settings == settings
    {
      this.id := id;
      this.name := name;
      this.roles := roles;
      this.channels := channels;
      this.settings := settings;
    }

    /** CheckRoles: no error exactly when every team role exists in the guild; otherwise
        the error names a team role that is missing (which one depends on Go's map order). */
    method CheckRoles() returns (err: Option<GuildError>)
      ensures err.None? <==> forall t :: t in TeamRoles ==> exists r :: r in roles && r.name == t
      ensures err.Some? ==> (err.value.MissingRole? && err.value.name in TeamRoles
        && forall r :: r in roles ==> r.name != err.value.name)
    {
      var roleCheck: map<string, bool> := map[];
      for i := 0 to |TeamRoles|
        invariant roleCheck.Keys == set j | 0 <= j < i :: TeamRoles[j]
        invariant forall t :: t in roleCheck ==> !roleCheck[t]
      {
        roleCheck := roleCheck[TeamRoles[i] := false];
      }
      assert forall t :: t in roleCheck <==> t in TeamRoles;
      for i := 0 to |roles|
        invariant forall t :: t in roleCheck <==> t in TeamRoles
        invariant forall t :: t in roleCheck ==> (roleCheck[t] <==> exists j :: 0 <= j < i && roles[j].name == t)
      {
        if roles[i].name in roleCheck {
          roleCheck := roleCheck[roles[i].name := true];
        }
      }
      var todo := roleCheck.Keys;
      while todo != {}
        invariant todo <= roleCheck.Keys
        invariant forall t :: t in roleCheck && t !in todo ==> roleCheck[t]
        decreases todo
      {
        var role :| role in todo;
        if !roleCheck[role] {
          return Some(MissingRole(role));
        }
        todo := todo - {role};
      }
      return None;
    }

    /** GetChannelID: the ID of the first channel with the name, or an error naming it. */
    method GetChannelID(c: string) returns (channelId: string, err: Option<GuildError>)
      ensures err.None? ==> (exists i :: (0 <= i < |channels| && channels[i].name == c && channelId == channels[i].id
        && forall j :: 0 <= j < i ==> channels[j].name != c))
      ensures err.Some? ==> (err == Some(MissingChannel(c)) && channelId == ""
        && (forall j :: 0 <= j < |channels| ==> channels[j].name != c))
    {
      for i := 0 to |channels|
        invariant forall j :: 0 <= j < i ==> channels[j].name != c
      {
        if channels[i].name == c {
          return channels[i].id, None;
        }
      }
      return "", Some(MissingChannel(c));
    }

    /** GetRoleID: the ID of the first role with the name, or an error naming it. */
    method GetRoleID(r: string) returns (roleId: string, err: Option<GuildError>)
      ensures err.None? ==> (exists i :: (0 <= i < |roles| && roles[i].name == r && roleId == roles[i].id
        && forall j :: 0 <= j < i ==> roles[j].name != r))
      ensures err.Some? ==> (err == Some(MissingRole(r)) && roleId == ""
        && (forall j :: 0 <= j < |roles| ==> roles[j].name != r))
    {
      for i := 0 to |roles|
        invariant forall j :: 0 <= j < i ==> roles[j].name != r
      {
        if roles[i].name == r {
          return roles[i].id, None;
        }
      }
      return "", Some(MissingRole(r));
    }

    /** Update: a guild whose settings have no name is stored (taking the live name when
        there is one) and the save's error returned; otherwise nothing happens. The result
        of writing the file is a parameter. */
    method Update(store: GuildSettings, saveErr: Option<string>) returns (err: Option<string>)
      modifies this, store
      ensures old(settings.name) == "" ==> (settings == Synced(old(settings), name)
        && store.guildSettings == Upsert(old(store.guildSettings), id, settings) && err == saveErr)
      ensures old(settings.name) != "" ==> (settings == old(settings)
        && store.guildSettings == old(store.guildSettings) && err.None?)
      ensures name == old(name) && roles == old(roles) && channels == old(channels)
    {
      if settings.name == "" {
        var _ := store.Add(this);
        return saveErr;
      }
      return None;
    }

    /** SetPrefix: sets the bot prefix and stores the settings. */
    method SetPrefix(store: GuildSettings, pre: string)
      modifies this, store
      ensures settings == Synced(old(settings).(botPrefix := pre), name)
      ensures store.guildSettings == Upsert(old(store.guildSettings), id, settings)
      ensures name == old(name) && roles == old(roles) && channels == old(channels)
    {
      settings := settings.(botPrefix := pre);
      var _ := store.Add(this);
    }

    /** SetWelcome: sets the welcome message and stores the settings. */
    method SetWelcome(store: GuildSettings, msg: string)
      modifies this, store
      ensures settings == Synced(old(settings).(welcome := msg), name)
      ensures store.guildSettings == Upsert(old(store.guildSettings), id, settings)
      ensures name == old(name) && roles == old(roles) && channels == old(channels)
    {
      settings := settings.(welcome := msg);
      var _ := store.Add(this);
    }

    /** SetGoodbye: sets the goodbye message and stores the settings. */
    method SetGoodbye(store: GuildSettings, msg: string)
      modifies this, store
      ensures settings == Synced(old(settings).(goodbye := msg), name)
      ensures store.guildSettings == Upsert(old(store.guildSettings), id, settings)
      ensures name == old(name) && roles == old(roles) && channels == old(channels)
    {
      settings := settings.(goodbye := msg);
      var _ := store.Add(this);
    }

    /** Manage: sets whether the bot manages the guild and stores the settings. */
    method Manage(store: GuildSettings, manage: bool)
      modifies this, store
      ensures settings == Synced(old(settings).(managed := manage), name)
      ensures store.guildSettings == Upsert(old(store.guildSettings), id, settings)
      ensures name == old(name) && roles == old(roles) && channels == old(channels)
    {
      settings := settings.(managed := manage);
      var _ := store.Add(this);
    }

    /** ManageTeams: sets whether the bot manages the teams and stores the settings. */
    method ManageTeams(store: GuildSettings, manage: bool)
      modifies this, store
      ensures settings == Synced(old(settings).(teams := manage), name)
      ensures store.guildSettings == Upsert(old(store.guildSettings), id, settings)
      ensures name == old(name) && roles == old(roles) && channels == old(channels)
    {
      settings := settings.(teams := manage);
      var _ := store.Add(this);
    }
  }

  /** The settings of every guild, in file order (GuildSettings). */
  class GuildSettings {
    var guildSettings: seq<GuildSetting>

    constructor ()
      ensures guildSettings == []
    {
      guildSettings := [];
    }

    /** add: copies the live name into the guild's settings when it is not empty, then
        overwrites the first entry with the guild's ID or appends; returns the receiver. */
    method Add(g: Guild) returns (r: GuildSettings)
      modifies this, g
      ensures r == this
      ensures g.settings == Synced(old(g.settings), g.name)
      ensures guildSettings == Upsert(old(guildSettings), g.id, g.settings)
      ensures g.name == old(g.name) && g.roles == old(g.roles) && g.channels == old(g.channels)
    {
      if g.name != "" {
        g.settings := g.settings.(name := g.name);
      }
      for i := 0 to |guildSettings|
        invariant guildSettings == old(guildSettings)
        invariant forall j :: 0 <= j < i ==> guildSettings[j].id != g.id
      {
        if guildSettings[i].id == g.id {
          FirstIndexUnique(guildSettings, g.id, i);
          guildSettings := guildSettings[i := g.settings];
          return this;
        }
      }
      guildSettings := guildSettings + [g.settings];
      return this;
    }
  }

  /** The guilds the bot knows, by ID (Guilds). */
  class GuildRegistry {
    var guilds: map<string, Guild>

    constructor ()
      ensures guilds == map[]
    {
      guilds := map[];
    }

    /** NewGuild: default settings for a live guild (unmanaged, no teams, the configured
        prefix, the guild's ID and its name), registered under its ID. */
    method NewGuild(id: string, name: string, roles: seq<Role>, channels: seq<Channel>, botPrefix: string)
      returns (g: Guild)
      modifies this
      ensures fresh(g) && guilds == old(guilds)[id := g]
      ensures g.id == id && g.name == name && g.roles == roles && g.channels == channels
      ensures g.settings == GuildSetting(name, id, false, false, botPrefix, "", "")
    {
      g := new Guild(id, name, roles, channels, GuildSetting("", id, false, false, botPrefix, "", ""));
      if name != "" {
        g.settings := g.settings.(name := name);
      }
      guilds := guilds[id := g];
    }
  }
}
