/**
 * A player of the simulator: its secret role, what it has learnt, its trust
 * in the others, and the rules by which it picks a strategy, a vote target
 * and (as Bodyguard) a guard target.
 */
module Agent {
  import opened Rules
  import opened Lists
  import opened OrderedDict

  /** The four kinds of observation `learn` accepts. */
  datatype Observation =
    | VoteObs(tally: Dict<string, nat>)
    | ClaimObs(claimant: string, claimed: string)
    | SeerObs(target: string, result: string)
    | MediumObs(dayNum: int, target: string, result: string)

  /** An observation that carries a sighting result and so feeds the known sets. */
  predicate IsSighting(obs: Observation) {
    obs.SeerObs? || obs.MediumObs?
  }

  /**
   * What a player says in the discussion, short of its wording: the Seer's
   * day-2 report (the only line that is a role claim), a Bodyguard's pledge,
   * a Medium's report, or one of the personality's stock lines about the
   * current vote target.
   */
  datatype Line =
    | SeerClaim(target: string, result: string)
    | GuardPledge(guard: Option<string>)
    | MediumResult(executed: string, result: string)
    | Styled(about: Option<string>)

  /** `trust_scores.get(n, 0.5)` */
  function Score(trust: map<string, real>, n: string): real {
    if n in trust then trust[n] else 0.5
  }

  function NameSet(ps: seq<Player>): set<string> {
    set p <- ps :: p.name
  }

  /**
   * Some player of `ps` is named `n`: membership in `NameSet(ps)` written
   * by recursion, the form the facts quantified over every living player
   * use.
   */
  predicate Named(ps: seq<Player>, n: string) {
    ps != [] && (ps[0].name == n || Named(ps[1..], n))
  }

  lemma {:induction false} NamedIsNameSet(ps: seq<Player>, n: string)
    ensures Named(ps, n) <==> n in NameSet(ps)
  {
    if ps != [] {
      NamedIsNameSet(ps[1..], n);
      assert NameSet(ps) == {ps[0].name} + NameSet(ps[1..]);
    }
  }

  /** The name in seat `i`; the pairwise check below is stated over it. */
  function NameAt(ps: seq<Player>, i: nat): string
    requires i < |ps|
  {
    ps[i].name
  }

  predicate DistinctNames(ps: seq<Player>) {
    forall i, j :: 0 <= i < j < |ps| ==> NameAt(ps, i) != NameAt(ps, j)
  }

  /** In a list with distinct names, a name picks out one player. */
  lemma NameIdentifies(ps: seq<Player>, i: nat, j: nat)
    requires DistinctNames(ps) && i < |ps| && j < |ps|
    ensures ps[i].name == ps[j].name ==> i == j
  {
    if i < j { assert NameAt(ps, i) != NameAt(ps, j); }
    if j < i { assert NameAt(ps, j) != NameAt(ps, i); }
  }

  /** In a list with distinct names, two of its players with the same name are the same player. */
  lemma SameNameSamePlayer(ps: seq<Player>, p: Player, q: Player)
    requires DistinctNames(ps) && p in ps && q in ps && p.name == q.name
    ensures p == q
  {
    var i :| 0 <= i < |ps| && ps[i] == p;
    var j :| 0 <= j < |ps| && ps[j] == q;
    NameIdentifies(ps, i, j);
  }

  /** Prepending a player whose name no one else has keeps the names distinct. */
  lemma ConsKeepsNamesDistinct(head: seq<Player>, rest: seq<Player>)
    requires |head| <= 1 && DistinctNames(rest)
    requires forall p <- head, q <- rest :: p.name != q.name
    ensures DistinctNames(head + rest)
  {
    var s := head + rest;
    forall i, j | 0 <= i < j < |s| ensures NameAt(s, i) != NameAt(s, j) {
      assert s[j] == rest[j - |head|];
      if i < |head| {
        assert s[i] in head && s[j] in rest;
      } else {
        assert s[i] == rest[i - |head|];
        assert NameAt(rest, i - |head|) != NameAt(rest, j - |head|);
      }
    }
  }

  /** Dropping the first player keeps the names distinct, and none of the rest has its name. */
  lemma TailNamesDiffer(ps: seq<Player>)
    requires DistinctNames(ps) && ps != []
    ensures DistinctNames(ps[1..])
    ensures forall q <- ps[1..] :: q.name != ps[0].name
  {
    var rest := ps[1..];
    forall i, j | 0 <= i < j < |rest| ensures NameAt(rest, i) != NameAt(rest, j) {
      assert NameAt(ps, i + 1) != NameAt(ps, j + 1);
    }
    forall q <- ps[1..] ensures q.name != ps[0].name {
      var i :| 0 <= i < |ps[1..]| && ps[1..][i] == q;
      assert ps[i + 1] == q;
      NameIdentifies(ps, 0, i + 1);
    }
  }

  lemma {:induction false} FilterKeepsNamesDistinct(ps: seq<Player>, f: Player -> bool)
    requires DistinctNames(ps)
    ensures DistinctNames(Filter(ps, f))
  {
    if ps != [] {
      var rest := ps[1..];
      TailNamesDiffer(ps);
      FilterKeepsNamesDistinct(rest, f);
      var head: seq<Player> := if f(ps[0]) then [ps[0]] else [];
      ConsKeepsNamesDistinct(head, Filter(rest, f));
      assert Filter(ps, f) == head + Filter(rest, f);
    }
  }

  /** In a list with distinct names, no other entry is the same player as the `i`-th. */
  lemma Unique(ps: seq<Player>, i: nat)
    requires DistinctNames(ps) && i < |ps|
    ensures forall j :: 0 <= j < |ps| && j != i ==> ps[j] != ps[i]
  {
    forall j | 0 <= j < |ps| && j != i ensures ps[j] != ps[i] {
      NameIdentifies(ps, i, j);
    }
  }

  /** `[p for p in alive if p.name != me]` */
  function Others(alive: seq<Player>, me: string): (r: seq<Player>)
    ensures forall p <- r :: p in alive && p.name != me
    ensures forall p <- alive :: p.name != me ==> p in r
  {
    Filter(alive, (p: Player) => p.name != me)
  }

  /** Among two or more players with distinct names, anyone has someone else to pick. */
  lemma OthersNonEmpty(ps: seq<Player>, me: string)
    requires DistinctNames(ps) && |ps| >= 2
    ensures Others(ps, me) != []
  {
    if ps[0].name == me { NameIdentifies(ps, 0, 1); assert ps[1] in Others(ps, me); } else { assert ps[0] in Others(ps, me); }
  }

  /** Among players with distinct names, a player's others are everyone but that player. */
  lemma OthersCount(alive: seq<Player>, me: Player)
    requires DistinctNames(alive) && me in alive
    ensures |Others(alive, me.name)| == |alive| - 1
  {
    forall i, j | 0 <= i < j < |alive| ensures Elem(alive, i) != Elem(alive, j) {
      Unique(alive, i);
    }
    forall y <- alive ensures y.name != me.name <==> y != me {
      if y.name == me.name {
        SameNameSamePlayer(alive, y, me);
      }
    }
    FilterDropsOne(alive, (p: Player) => p.name != me.name, me);
  }

  /** `[o for o in others if o.name not in invalid]` */
  function Candidates(others: seq<Player>, invalid: set<string>): (r: seq<Player>)
    ensures forall p <- r :: p in others && p.name !in invalid
    ensures forall p <- others :: p.name !in invalid ==> p in r
  {
    Filter(others, (p: Player) => p.name !in invalid)
  }

  /** The other players keep the seating order: the others of a join are the others of each part, joined. */
  lemma OthersAppend(ps: seq<Player>, qs: seq<Player>, me: string)
    ensures Others(ps + qs, me) == Others(ps, me) + Others(qs, me)
  {
    FilterAppend(ps, qs, (p: Player) => p.name != me);
  }

  /** The candidates keep the order of the other players, as the comprehension does. */
  lemma CandidatesAppend(ps: seq<Player>, qs: seq<Player>, invalid: set<string>)
    ensures Candidates(ps + qs, invalid) == Candidates(ps, invalid) + Candidates(qs, invalid)
  {
    FilterAppend(ps, qs, (p: Player) => p.name !in invalid);
  }

  /**
   * The names a player may not vote for: a Werewolf that is not bus-throwing
   * spares every living Werewolf, a Seer spares every name it knows to be
   * human, everyone else spares nobody.
   */
  function Excluded(role: Role, strategy: Strategy, alive: seq<Player>, white: set<string>): (x: set<string>)
    ensures role == Werewolf && strategy != BusThrow ==>
              forall n :: n in x <==> exists p <- alive :: p.role == Werewolf && p.name == n
    ensures role == Seer ==> x == white
    ensures role != Seer && !(role == Werewolf && strategy != BusThrow) ==> x == {}
  {
    if role == Werewolf && strategy != BusThrow then set p <- alive | p.role == Werewolf :: p.name
    else if role == Seer then white
    else {}
  }

  /** Python's `min(ps, key=score)`: the first player of least trust. */
  function ArgMinTrust(ps: seq<Player>, trust: map<string, real>): (k: nat)
    requires ps != []
    ensures k < |ps|
    ensures forall j :: 0 <= j < |ps| ==> Score(trust, ps[k].name) <= Score(trust, ps[j].name)
    ensures forall j :: 0 <= j < k ==> Score(trust, ps[k].name) < Score(trust, ps[j].name)
  {
    if |ps| == 1 then 0
    else
      var k := ArgMinTrust(ps[1..], trust);
      if Score(trust, ps[0].name) <= Score(trust, ps[k + 1].name) then 0 else k + 1
  }

  /**
   * The head of Python's `sorted(ps, key=score, reverse=True)`: the sort is
   * stable, so this is the first player of greatest trust.
   */
  function ArgMaxTrust(ps: seq<Player>, trust: map<string, real>): (k: nat)
    requires ps != []
    ensures k < |ps|
    ensures forall j {:trigger Score(trust, ps[j].name)} :: 0 <= j < |ps| ==> Score(trust, ps[j].name) <= Score(trust, ps[k].name)
    ensures forall j {:trigger Score(trust, ps[j].name)} :: 0 <= j < k ==> Score(trust, ps[j].name) < Score(trust, ps[k].name)
  {
    if |ps| == 1 then 0
    else
      var k := ArgMaxTrust(ps[1..], trust);
      if Score(trust, ps[0].name) >= Score(trust, ps[k + 1].name) then 0 else k + 1
  }

  /** The Bodyguard's guard target among the other living players. */
  function GuardChoice(others: seq<Player>, trust: map<string, real>): (g: string)
    requires others != []
    ensures g in NameSet(others)
    ensures forall o <- others {:trigger o in others} :: Score(trust, o.name) <= Score(trust, g)
  {
    others[ArgMaxTrust(others, trust)].name
  }

  /** Ties go to the earliest: every player before the chosen one is trusted strictly less. */
  lemma GuardChoiceFirst(others: seq<Player>, trust: map<string, real>)
    requires others != []
    ensures exists k :: 0 <= k < |others| && others[k].name == GuardChoice(others, trust) &&
              forall j {:trigger Score(trust, others[j].name)} :: 0 <= j < k ==> Score(trust, others[j].name) < Score(trust, GuardChoice(others, trust))
  {
    var k := ArgMaxTrust(others, trust);
    assert others[k].name == GuardChoice(others, trust);
  }

  /**
   * The trust map after knowledge is applied: every known-wolf name is set
   * to 0.0, then every known-human name to 1.0, so a name in both ends at 1.0.
   */
  function Pinned(trust: map<string, real>, black: set<string>, white: set<string>): (r: map<string, real>)
    ensures r.Keys == trust.Keys + black + white
    ensures forall w <- white :: r[w] == 1.0
    ensures forall b <- black :: b !in white ==> r[b] == 0.0
    ensures forall n <- trust.Keys :: n !in black && n !in white ==> r[n] == trust[n]
  {
    Overwritten(Overwritten(trust, black, 0.0), white, 1.0)
  }

  /** Pinning what a player knows a second time changes nothing. */
  lemma PinnedTwice(trust: map<string, real>, black: set<string>, white: set<string>)
    ensures Pinned(Pinned(trust, black, white), black, white) == Pinned(trust, black, white)
  {
    var once := Pinned(trust, black, white);
    assert Pinned(once, black, white).Keys == once.Keys;
  }

  /** `trust` with every name of `names` set to `v`. */
  function Overwritten(trust: map<string, real>, names: set<string>, v: real): map<string, real> {
    trust + map n | n in names :: v
  }

  /**
   * Whether `o` is a possible value of `target_override`: a Seer that knows a
   * living wolf takes one of them (the set is walked in no particular order);
   * in every other case there is no override.
   */
  predicate IsOverride(o: Option<string>, role: Role, black: set<string>, alive: seq<Player>) {
    if role == Seer && (exists b :: b in black && b in NameSet(alive))
    then o.Some? && o.value in black && o.value in NameSet(alive)
    else o == None
  }

  /**
   * The vote target: a (truthy) override wins; otherwise the first candidate
   * of least trust; with no candidate, the other player that `pick` selects.
   */
  function VoteChoice(me: string, role: Role, strategy: Strategy, white: set<string>,
                      alive: seq<Player>, trust: map<string, real>, override: Option<string>,
                      pick: nat): (t: string)
    requires Others(alive, me) != []
    ensures Truthy(override) ==> t == override.value
    ensures !Truthy(override) ==> t in NameSet(Others(alive, me))
    ensures var others := Others(alive, me);
            var cands := Candidates(others, Excluded(role, strategy, alive, white));
            && (!Truthy(override) && cands != [] ==>
                  && t !in Excluded(role, strategy, alive, white)
                  && t == cands[ArgMinTrust(cands, trust)].name
                  && forall c <- cands :: Score(trust, t) <= Score(trust, c.name))
            && (!Truthy(override) && cands == [] ==> t == others[pick % |others|].name)
  {
    var others := Others(alive, me);
    var candidates := Candidates(others, Excluded(role, strategy, alive, white));
    var fallback := if candidates != [] then candidates[ArgMinTrust(candidates, trust)]
                    else others[pick % |others|];
    if Truthy(override) then override.value else fallback.name
  }

  /**
   * The vote target is always another living player, provided a Seer does
   * not count itself among the wolves it knows.
   */
  lemma VoteChoiceIsOther(me: string, role: Role, strategy: Strategy, white: set<string>, black: set<string>,
                          alive: seq<Player>, trust: map<string, real>, override: Option<string>, pick: nat)
    requires Others(alive, me) != []
    requires IsOverride(override, role, black, alive)
    requires role == Seer ==> me !in black
    ensures VoteChoice(me, role, strategy, white, alive, trust, override, pick) in NameSet(Others(alive, me))
  {
    if Truthy(override) {
      var q :| q in alive && q.name == override.value;
      assert q in Others(alive, me);
    }
  }

  /**
   * The strategy tag for a day: `coin` is the `random.random()` draw, which
   * the source makes only for a Werewolf or a Madman from day 2 on.
   */
  function StrategyFor(role: Role, day: int, coin: real, black: set<string>): (s: Strategy)
    ensures role == Werewolf ==> (s == BusThrow <==> day >= 2 && coin < 0.2) && (s != BusThrow ==> s == Stealth)
    ensures role == Madman ==> (s == FakeCo <==> day >= 2 && coin < 0.7) && (s != FakeCo ==> s == Chaos)
    ensures role == Seer ==> (s == RevealTruth <==> black != {}) && (s != RevealTruth ==> s == DivinerWait)
    ensures role !in {Werewolf, Madman, Seer} ==> s == VillageThought
  {
    if role == Werewolf then (if day >= 2 && coin < 0.2 then BusThrow else Stealth)
    else if role == Madman then (if day >= 2 && coin < 0.7 then FakeCo else Chaos)
    else if role == Seer then (if black != {} then RevealTruth else DivinerWait)
    else VillageThought
  }

  /** Trust after `init_trust`: each listed name, in turn, gets 0.5 plus its jitter. */
  function Jittered(trust: map<string, real>, others: seq<string>, noise: seq<real>): (r: map<string, real>)
    requires |noise| == |others|
    ensures forall k :: k in r <==> k in trust || k in others
  {
    if others == [] then trust
    else
      var n := |others| - 1;
      Jittered(trust, others[..n], noise[..n])[others[n] := 0.5 + noise[n]]
  }

  /** Starting trust lies within 0.1 of 0.5 for every listed name. */
  lemma {:induction false} JitteredBounds(trust: map<string, real>, others: seq<string>, noise: seq<real>)
    requires |noise| == |others|
    requires forall i :: 0 <= i < |noise| ==> -0.1 <= noise[i] <= 0.1
    ensures forall o <- others :: 0.4 <= Jittered(trust, others, noise)[o] <= 0.6
  {
    if others != [] {
      var n := |others| - 1;
      var prefix := others[..n];
      JitteredBounds(trust, prefix, noise[..n]);
      forall o <- others ensures 0.4 <= Jittered(trust, others, noise)[o] <= 0.6 {
        if o != others[n] {
          var i :| 0 <= i < |others| && others[i] == o;
          assert prefix[i] == o;
        }
      }
    }
  }

  /** Names not listed keep the trust they had. */
  lemma {:induction false} JitteredKeeps(trust: map<string, real>, others: seq<string>, noise: seq<real>)
    requires |noise| == |others|
    ensures forall k <- trust :: k !in others ==> Jittered(trust, others, noise)[k] == trust[k]
  {
    if others != [] {
      var n := |others| - 1;
      JitteredKeeps(trust, others[..n], noise[..n]);
      assert forall i :: 0 <= i < n ==> others[..n][i] == others[i];
    }
  }

  /** With distinct names each listed name gets exactly 0.5 plus its own jitter. */
  lemma {:induction false} JitteredExact(trust: map<string, real>, others: seq<string>, noise: seq<real>)
    requires |noise| == |others| && Distinct(others)
    ensures forall i :: 0 <= i < |others| ==> Jittered(trust, others, noise)[others[i]] == 0.5 + noise[i]
  {
    if others != [] {
      var n := |others| - 1;
      var prefix := others[..n];
      DistinctInit(others);
      JitteredExact(trust, prefix, noise[..n]);
      forall i | 0 <= i < n ensures Jittered(trust, others, noise)[others[i]] == 0.5 + noise[i] {
        DistinctAt(others, i, n);
        assert others[i] == prefix[i];
      }
    }
  }

  /** Whether the text of a line contains "CO" (the source's claim test). */
  predicate HasCO(s: string) {
    exists i :: 0 <= i < |s| - 1 && s[i] == 'C' && s[i + 1] == 'O'
  }

  /** How an optional name is rendered inside an f-string. */
  function Shown(o: Option<string>): string {
    if o.Some? then o.value else "None"
  }

  /**
   * The source's claim test, `"CO" in text`, as it behaves on each line: the
   * Seer's report carries the "CO" marker; every other line carries "CO"
   * exactly when a name or result it quotes does (the fixed wording around
   * them is Japanese with no Latin letters).
   */
  predicate TextHasCO(line: Line) {
    match line
    case SeerClaim(_, _) => true
    case GuardPledge(g) => HasCO(Shown(g))
    case MediumResult(e, r) => HasCO(e) || HasCO(r)
    case Styled(t) => HasCO(Shown(t))
  }

  /**
   * The role-claim test as intended: only the Seer's report is a claim. It
   * never fires where the source's test does not.
   */
  predicate IsRoleClaim(line: Line)
    ensures IsRoleClaim(line) ==> TextHasCO(line)
    ensures IsRoleClaim(line) <==> line.SeerClaim?
  {
    line.SeerClaim?
  }

  /** A player named "NICO" mentioned in a stock line trips the source's claim test. */
  lemma SpuriousClaim()
    ensures TextHasCO(Styled(Some("NICO"))) && !IsRoleClaim(Styled(Some("NICO")))
  {
    assert "NICO"[2] == 'C' && "NICO"[3] == 'O';
  }

  class Player {
    const name: string
    const role: Role
    const personality: Personality
    var isAlive: bool
    var revealedRole: bool
    var coStatus: bool
    /** `known_whitelist` and `known_blacklist` */
    var white: set<string>
    var black: set<string>
    /** The entries of `memory` */
    var voteHistory: map<int, Dict<string, nat>>
    var coHistory: map<string, string>
    /** Never written after the player is made, so it stays empty. */
    const deaths: seq<string>
    var seerReports: Dict<string, string>
    var mediumReports: map<int, (string, string)>
    /** `trust_scores` */
    var trust: map<string, real>
    var strategy: Strategy
    var currentTarget: Option<string>
    var currentGuardTarget: Option<string>

    ghost predicate Valid()
      reads this`seerReports
    {
      seerReports.Valid()
    }

    /** The state of a player nobody has told anything yet. */
    ghost predicate Untouched()
      reads this
    {
      && isAlive && !revealedRole && !coStatus
      && white == {} && black == {}
      && voteHistory == map[] && coHistory == map[] && deaths == []
      && seerReports == Empty() && mediumReports == map[]
      && trust == map[] && strategy == Normal
      && currentTarget == None && currentGuardTarget == None
    }

    constructor (name: string, role: Role, personality: Personality)
      ensures this.name == name && this.role == role && this.personality == personality
      ensures Valid() && Untouched()
    {
      this.name := name;
      this.role := role;
      this.personality := personality;
      isAlive, revealedRole, coStatus := true, false, false;
      white, black := {}, {};
      voteHistory, coHistory, deaths := map[], map[], [];
      seerReports, mediumReports := Empty(), map[];
      trust := map[];
      strategy := Normal;
      currentTarget, currentGuardTarget := None, None;
    }

    /** `init_trust`: `noise` holds the `random.uniform(-0.1, 0.1)` draws. */
    method InitTrust(others: seq<string>, noise: seq<real>)
      requires |noise| == |others|
      requires forall i :: 0 <= i < |noise| ==> -0.1 <= noise[i] <= 0.1
      modifies this`trust
      ensures trust == Jittered(old(trust), others, noise)
    {
      for i := 0 to |others|
        invariant trust == Jittered(old(trust), others[..i], noise[..i])
      {
        assert others[..i + 1][..i] == others[..i];
        assert noise[..i + 1][..i] == noise[..i];
        trust := trust[others[i] := 0.5 + noise[i]];
        assert trust == Jittered(old(trust), others[..i + 1], noise[..i + 1]);
      }
      assert others[..|others|] == others;
      assert noise[..|noise|] == noise;
    }

    /** `learn`: records an observation; a sighting also files its target as wolf or human. */
    method Learn(day: int, obs: Observation)
      requires Valid()
      modifies this`voteHistory, this`coHistory, this`seerReports, this`mediumReports, this`white, this`black
      ensures Valid()
      ensures old(white) <= white && old(black) <= black
      ensures voteHistory == if obs.VoteObs? then old(voteHistory)[day := obs.tally] else old(voteHistory)
      ensures coHistory == if obs.ClaimObs? then old(coHistory)[obs.claimant := obs.claimed] else old(coHistory)
      ensures seerReports == if obs.SeerObs? then old(seerReports).Put(obs.target, obs.result) else old(seerReports)
      ensures mediumReports ==
                if obs.MediumObs? then old(mediumReports)[obs.dayNum := (obs.target, obs.result)] else old(mediumReports)
      ensures black == if IsSighting(obs) && obs.result == WolfResult then old(black) + {obs.target} else old(black)
      ensures white == if IsSighting(obs) && obs.result != WolfResult then old(white) + {obs.target} else old(white)
    {
      match obs
      case VoteObs(tally) => NoteVotes(day, tally);
      case ClaimObs(claimant, claimed) => NoteClaim(claimant, claimed);
      case SeerObs(target, result) => NoteSeerReport(target, result);
      case MediumObs(dayNum, target, result) => NoteMediumReport(dayNum, target, result);
    }

    /** The "VOTE" branch of `learn`. */
    method NoteVotes(day: int, tally: Dict<string, nat>)
      modifies this`voteHistory
      ensures voteHistory == old(voteHistory)[day := tally]
    {
      voteHistory := voteHistory[day := tally];
    }

    /** The "CO" branch of `learn`. */
    method NoteClaim(claimant: string, claimed: string)
      modifies this`coHistory
      ensures coHistory == old(coHistory)[claimant := claimed]
    {
      coHistory := coHistory[claimant := claimed];
    }

    /** Files a sighting's target as wolf or human by its result. */
    method File(target: string, result: string)
      modifies this`white, this`black
      ensures black == if result == WolfResult then old(black) + {target} else old(black)
      ensures white == if result != WolfResult then old(white) + {target} else old(white)
    {
      if result == WolfResult { black := black + {target}; } else { white := white + {target}; }
    }

    /** The "SEER_REPORT" branch of `learn`. */
    method NoteSeerReport(target: string, result: string)
      requires Valid()
      modifies this`seerReports, this`white, this`black
      ensures Valid()
      ensures seerReports == old(seerReports).Put(target, result)
      ensures black == if result == WolfResult then old(black) + {target} else old(black)
      ensures white == if result != WolfResult then old(white) + {target} else old(white)
    {
      seerReports := seerReports.Put(target, result);
      File(target, result);
    }

    /** The "MEDIUM_REPORT" branch of `learn`. */
    method NoteMediumReport(dayNum: int, target: string, result: string)
      modifies this`mediumReports, this`white, this`black
      ensures mediumReports == old(mediumReports)[dayNum := (target, result)]
      ensures black == if result == WolfResult then old(black) + {target} else old(black)
      ensures white == if result != WolfResult then old(white) + {target} else old(white)
    {
      mediumReports := mediumReports[dayNum := (target, result)];
      File(target, result);
    }

    /** `decide_strategy`: `coin` is the `random.random()` draw. */
    method DecideStrategy(day: int, coin: real)
      requires 0.0 <= coin < 1.0
      modifies this`strategy
      ensures strategy == StrategyFor(role, day, coin, black)
    {
      if role == Werewolf {
        strategy := if day >= 2 && coin < 0.2 then BusThrow else Stealth;
      } else if role == Madman {
        strategy := if day >= 2 && coin < 0.7 then FakeCo else Chaos;
      } else if role == Seer {
        if black != {} { strategy := RevealTruth; } else { strategy := DivinerWait; }
      } else {
        strategy := VillageThought;
      }
    }

    /**
     * The state `select_action_targets` leaves when someone else is alive,
     * from the trust `trust0` and the guard target `guard0` the player had:
     * what the player knows is pinned into its trust; a Bodyguard guards
     * the other player it trusted most under `trust0`; and the vote target
     * is `VoteChoice` on the pinned trust, under an override the Seer may take.
     */
    ghost predicate Targeted(alive: seq<Player>, pick: nat, trust0: map<string, real>, guard0: Option<string>)
      reads this`trust, this`currentTarget, this`currentGuardTarget, this`black, this`white, this`strategy
    {
      && Others(alive, name) != []
      && trust == Pinned(trust0, black, white)
      && currentGuardTarget ==
           (if role == Bodyguard then Some(GuardChoice(Others(alive, name), trust0)) else guard0)
      && exists o :: IsOverride(o, role, black, alive) &&
           currentTarget == Some(VoteChoice(name, role, strategy, white, alive, trust, o, pick))
    }

    /** The player's trust already agrees with what it knows: pinning it again changes nothing. */
    predicate Settled()
      reads this`trust, this`black, this`white
    {
      Pinned(trust, black, white) == trust
    }

    /**
     * The player has planned its day: it took the strategy its role gives
     * for `coin`, holds the trust and targets `select_action_targets` leaves
     * from `trust0` and `guard0`, and its vote target is another living
     * player.
     */
    ghost predicate PlanMade(alive: seq<Player>, day: int, coin: real, pick: nat, trust0: map<string, real>, guard0: Option<string>)
      reads this`strategy, this`trust, this`currentTarget, this`currentGuardTarget, this`black, this`white
    {
      && strategy == StrategyFor(role, day, coin, black)
      && Targeted(alive, pick, trust0, guard0)
      && currentTarget.Some? && Named(alive, currentTarget.value) && currentTarget.value != name
    }

    /**
     * One turn of the discussion's planning loop: `decide_strategy`, then
     * `select_action_targets`.
     */
    method Plan(day: int, coin: real, alive: seq<Player>, pick: nat)
      requires 0.0 <= coin < 1.0
      requires Others(alive, name) != []
      requires role == Seer ==> name !in black
      modifies this`strategy, this`trust, this`currentTarget, this`currentGuardTarget
      ensures PlanMade(alive, day, coin, pick, old(trust), old(currentGuardTarget))
    {
      DecideStrategy(day, coin);
      SelectActionTargets(alive, pick);
      NamedIsNameSet(alive, currentTarget.value);
      var q :| q in Others(alive, name) && q.name == currentTarget.value;
    }

    /**
     * The Bodyguard's night turn: `select_action_targets` run again, of
     * which the world uses the guard target.
     */
    method NightWatch(alive: seq<Player>, pick: nat)
      requires role == Bodyguard
      modifies this`trust, this`currentTarget, this`currentGuardTarget
      ensures Others(alive, name) != [] ==> Targeted(alive, pick, old(trust), old(currentGuardTarget))
      ensures Others(alive, name) == [] ==>
                trust == old(trust) && currentTarget == old(currentTarget) && currentGuardTarget == old(currentGuardTarget)
    {
      SelectActionTargets(alive, pick);
    }

    /** `for n in names: trust_scores[n] = v` */
    method PinTrust(names: set<string>, v: real)
      modifies this`trust
      ensures trust == Overwritten(old(trust), names, v)
    {
      var rest := names;
      while rest != {}
        invariant rest <= names
        invariant forall k :: k in trust <==> k in old(trust) || k in names - rest
        invariant forall k <- trust :: trust[k] == if k in names - rest then v else old(trust)[k]
        decreases |rest|
      {
        var n :| n in rest;
        trust := trust[n := v];
        rest := rest - {n};
      }
      assert trust.Keys == Overwritten(old(trust), names, v).Keys;
    }

    /**
     * `select_action_targets`: with no other living player nothing changes.
     * Otherwise the Bodyguard first picks its guard target on the trust it
     * had on entry; knowledge is then pinned into the trust map; and the
     * vote target is the override or the least trusted candidate, with
     * `pick` standing for `random.choice(others)` when no candidate remains.
     */
    method SelectActionTargets(alive: seq<Player>, pick: nat)
      modifies this`trust, this`currentTarget, this`currentGuardTarget
      ensures Others(alive, name) == [] ==>
                trust == old(trust) && currentTarget == old(currentTarget) && currentGuardTarget == old(currentGuardTarget)
      ensures Others(alive, name) != [] ==> Targeted(alive, pick, old(trust), old(currentGuardTarget))
      ensures Others(alive, name) != [] && (role == Seer ==> name !in black) ==>
                currentTarget.Some? && currentTarget.value in NameSet(Others(alive, name))
    {
      var others := Others(alive, name);
      if others == [] {
        return;
      }
      var guard := if role == Bodyguard then Some(GuardChoice(others, trust)) else None;
      var override := SeerOverride(alive);
      var pinned := Pinned(trust, black, white);
      var t := VoteChoice(name, role, strategy, white, alive, pinned, override, pick);
      if role == Seer ==> name !in black {
        VoteChoiceIsOther(name, role, strategy, white, black, alive, pinned, override, pick);
      }
      Commit(guard, t);
      assert trust == pinned && currentTarget == Some(t);
      assert IsOverride(override, role, black, alive);
    }

    /**
     * The writes of `select_action_targets`, in the source's order: the guard
     * target (when there is one), the two loops that pin what the player
     * knows into its trust map, and the vote target.
     */
    method Commit(guard: Option<string>, target: string)
      modifies this`trust, this`currentTarget, this`currentGuardTarget
      ensures currentGuardTarget == if guard.Some? then guard else old(currentGuardTarget)
      ensures trust == Pinned(old(trust), black, white)
      ensures currentTarget == Some(target)
    {
      if guard.Some? {
        currentGuardTarget := guard;
      }
      PinTrust(black, 0.0);
      PinTrust(white, 1.0);
      currentTarget := Some(target);
    }

    /** The loop over `known_blacklist` that looks for a living wolf (Seer only). */
    method SeerOverride(alive: seq<Player>) returns (o: Option<string>)
      ensures IsOverride(o, role, black, alive)
    {
      o := None;
      if role == Seer {
        var aliveNames := NameSet(alive);
        var rest := black;
        while rest != {}
          invariant rest <= black
          invariant forall b <- black - rest :: b !in aliveNames
          decreases |rest|
        {
          var b :| b in rest;
          if b in aliveNames {
            return Some(b);
          }
          rest := rest - {b};
        }
      }
    }

    /**
     * The state effect of `generate_dialogue`: which line the player says.
     * `coin` is the Bodyguard's `random.random()` draw; the choice among the
     * stock lines only changes wording.
     */
    method Speak(day: int, coin: real) returns (line: Line)
      requires Valid()
      requires 0.0 <= coin < 1.0
      modifies this`coStatus
      ensures line.SeerClaim? <==> role == Seer && day == 2 && seerReports.keys != []
      ensures line.SeerClaim? ==>
                line.target == seerReports.keys[0] && line.result == seerReports.items[line.target]
      ensures coStatus == (old(coStatus) || line.SeerClaim?)
      ensures line.GuardPledge? <==> role == Bodyguard && day > 1 && coin < 0.3
      ensures line.GuardPledge? ==> line.guard == currentGuardTarget
      ensures line.MediumResult? <==> role == Medium && day > 1 && day - 1 in mediumReports
      ensures line.MediumResult? ==> (line.executed, line.result) == mediumReports[day - 1]
      ensures line.Styled? ==> line.about == currentTarget
    {
      if role == Seer && day == 2 && seerReports.keys != [] {
        var first := seerReports.keys[0];
        coStatus := true;
        return SeerClaim(first, seerReports.items[first]);
      }
      if role == Bodyguard && day > 1 && coin < 0.3 {
        return GuardPledge(currentGuardTarget);
      }
      if role == Medium && day > 1 && day - 1 in mediumReports {
        var report := mediumReports[day - 1];
        return MediumResult(report.0, report.1);
      }
      return Styled(currentTarget);
    }

    /** Death by attack or execution: `is_alive, revealed_role = False, True`. */
    method Die()
      modifies this`isAlive, this`revealedRole
      ensures !isAlive && revealedRole
    {
      isAlive, revealedRole := false, true;
    }
  }
}
