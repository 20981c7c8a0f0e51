/** Roles, teams, strategy tags and the win verdict of the werewolf simulator. */
module Rules {

  datatype Option<+T> = None | Some(value: T)

  /** Python truthiness of an optional name: `None` and the empty string are false. */
  predicate Truthy(o: Option<string>) {
    o.Some? && o.value != ""
  }

  /** The six keys of the ROLES table. */
  datatype Role = Werewolf | Villager | Seer | Madman | Bodyguard | Medium

  /** The "team" column of the ROLES table. */
  datatype Team = WolfTeam | VillagerTeam

  function TeamOf(r: Role): Team {
    match r
    case Werewolf | Madman => WolfTeam
    case Villager | Seer | Bodyguard | Medium => VillagerTeam
  }

  /** The five keys of PERSONALITY_DATA; they only choose narration wording. */
  datatype Personality = Aggressive | Timid | Logical | Intuitive | Psycho

  /** The strategy tags a player can adopt for a day. */
  datatype Strategy =
    | Normal | Stealth | BusThrow | Chaos | FakeCo | RevealTruth | DivinerWait | VillageThought

  /** The two values `winner` can take: "市民" and "人狼". */
  datatype Winner = Citizens | Werewolves

  /** The result strings of a Seer's or a Medium's sighting, and the claimed role of a CO. */
  const WolfResult: string := "人狼"
  const HumanResult: string := "人間"
  const ClaimedRole: string := "役職"

  /** What a sighting reports about a player of role `r`: only the Werewolf role reads as "人狼". */
  function SightingResult(r: Role): (s: string)
    ensures s == WolfResult <==> r == Werewolf
    ensures s != WolfResult ==> s == HumanResult
  {
    if r == Werewolf then WolfResult else HumanResult
  }

  /** Number of Werewolves among `roles` (the length of the list `w` in the win check). */
  function CountWolves(roles: seq<Role>): (n: nat)
    ensures n <= |roles|
    ensures n == 0 <==> Werewolf !in roles
  {
    if roles == [] then 0
    else (if roles[0] == Werewolf then 1 else 0) + CountWolves(roles[1..])
  }

  /** Number of members of team `t` among `roles`, by the ROLES table. */
  function CountTeam(roles: seq<Role>, t: Team): (n: nat)
    ensures n <= |roles|
  {
    if roles == [] then 0
    else (if TeamOf(roles[0]) == t then 1 else 0) + CountTeam(roles[1..], t)
  }

  /**
   * The verdict of the win check on the roles of the living players: the
   * village wins when no Werewolf lives; otherwise the wolves win when the
   * Werewolves are at least as many as all the others (a living Madman is
   * counted with the others); otherwise nobody has won yet.
   */
  function Verdict(roles: seq<Role>): (w: Option<Winner>)
    ensures w == Some(Citizens) <==> Werewolf !in roles
    ensures w == Some(Werewolves) <==>
              Werewolf in roles && CountWolves(roles) >= |roles| - CountWolves(roles)
    ensures w == None <==> 0 < CountWolves(roles) < |roles| - CountWolves(roles)
    ensures w == None ==> |roles| >= 3
  {
    var wolves := CountWolves(roles);
    if wolves == 0 then Some(Citizens)
    else if wolves >= |roles| - wolves then Some(Werewolves)
    else None
  }

  /** The Werewolf count is the multiplicity of Werewolf in the roles. */
  lemma {:induction false} CountWolvesIsMultiplicity(roles: seq<Role>)
    ensures CountWolves(roles) == multiset(roles)[Werewolf]
  {
    if roles != [] {
      CountWolvesIsMultiplicity(roles[1..]);
      assert roles == [roles[0]] + roles[1..];
      assert multiset(roles) == multiset([roles[0]]) + multiset(roles[1..]);
    }
  }

  /**
   * The verdict depends only on which roles are alive, not on seating order:
   * two checks over the same living players agree.
   */
  lemma VerdictIgnoresOrder(a: seq<Role>, b: seq<Role>)
    requires multiset(a) == multiset(b)
    ensures Verdict(a) == Verdict(b)
  {
    CountWolvesIsMultiplicity(a);
    CountWolvesIsMultiplicity(b);
    assert |a| == |multiset(a)| == |multiset(b)| == |b|;
  }

  /** Werewolves are a part of the Wolf team; a living Madman makes them a strict part. */
  lemma {:induction false} WolvesWithinWolfTeam(roles: seq<Role>)
    ensures CountWolves(roles) <= CountTeam(roles, WolfTeam)
    ensures Madman in roles ==> CountWolves(roles) < CountTeam(roles, WolfTeam)
  {
    if roles != [] {
      WolvesWithinWolfTeam(roles[1..]);
      if roles[0] != Madman {
        assert Madman in roles ==> Madman in roles[1..];
      }
    }
  }

  /**
   * A Madman sides with the village in the win check: one Werewolf, one
   * Madman and one Villager alive is no win, although the Wolf team holds
   * two of the three.
   */
  lemma MadmanDoesNotCountForWolves()
    ensures CountTeam([Werewolf, Madman, Villager], WolfTeam) == 2
    ensures Verdict([Werewolf, Madman, Villager]) == None
  {
    assert [Werewolf, Madman, Villager][1..] == [Madman, Villager];
    assert [Madman, Villager][1..] == [Villager];
  }
}
