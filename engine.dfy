/**
 * The world engine: the seating of players, the day counter, the game log,
 * and one day of the game (morning, win check, discussion, vote and
 * execution, win check, night) per call of RunNextDay.
 */
module Engine {
  import opened Rules
  import opened Lists
  import opened OrderedDict
  import opened Agent

  /** The entries of `day_events`, short of their wording. */
  datatype Event =
    | FirstMorning
    | PeacefulMorning
    | Death(victim: string, role: Role)
    | DiscussionPhase(day: int)
    | JudgementPhase
    | Chat(speaker: string, line: Line)
    | Execution(name: string, role: Role)
    | Win(winner: Winner)

  /** The `meta` entry of a log record: who was executed, attacked and guarded. */
  datatype Meta = Meta(exec: Option<string>, attack: Option<string>, guard: Option<string>)

  /** One entry of `logs`; the rendered graph is not part of the model. */
  datatype LogRecord = LogRecord(day: int, events: seq<Event>, meta: Meta)

  /** `last_exec_info`: the day, the executed name and what a Medium sees. */
  datatype ExecInfo = ExecInfo(day: int, name: string, result: string)

  /** One row of the cast table together with the role dealt to it. */
  datatype CastMember = CastMember(name: string, role: Role, personality: Personality)

  /**
   * The random draws one day may consume: per living player (in seating
   * order) the `random.random()` of `decide_strategy`, the index for
   * `random.choice(others)` in `select_action_targets` and the Bodyguard's
   * `random.random()` in `generate_dialogue`; then the indices for the
   * choice among the most voted, of the night victim, of the Bodyguard's
   * fallback vote target at night and of the Seer's target.
   */
  datatype Draws = Draws(strategyCoins: seq<real>, fallbackPicks: seq<nat>, dialogueCoins: seq<real>,
                         execPick: nat, victimPick: nat, guardPick: nat, seerPick: nat)

  predicate DrawsFit(d: Draws, n: nat) {
    && |d.strategyCoins| >= n && |d.fallbackPicks| >= n && |d.dialogueCoins| >= n
    && (forall i :: 0 <= i < |d.strategyCoins| ==> 0.0 <= d.strategyCoins[i] < 1.0)
    && (forall i :: 0 <= i < |d.dialogueCoins| ==> 0.0 <= d.dialogueCoins[i] < 1.0)
  }

  /** How a day ended: normally, or at the night attack with nobody to attack. */
  datatype Outcome = Completed | NoAttackTarget

  function CastNames(cast: seq<CastMember>): (names: seq<string>)
    ensures |names| == |cast| && forall i :: 0 <= i < |cast| ==> names[i] == cast[i].name
  {
    seq(|cast|, i requires 0 <= i < |cast| => cast[i].name)
  }

  /** `[op.name for op in players if op.name != me]` over the names. */
  function OtherNames(names: seq<string>, me: string): (r: seq<string>)
    ensures forall n :: n in r <==> n in names && n != me
    ensures Distinct(names) ==> Distinct(r)
    ensures me !in names ==> r == names
    ensures Distinct(names) && me in names ==> |r| == |names| - 1
  {
    if names == [] then []
    else
      var rest := OtherNames(names[1..], me);
      assert Distinct(names) ==> Distinct(names[1..]) && names[0] !in names[1..] && Distinct([names[0]] + rest) by {
        if Distinct(names) {
          DistinctTail(names);
          DistinctAppend([names[0]], rest);
        }
      }
      if names[0] == me then rest else [names[0]] + rest
  }

  /** `get_alive`: the living players in seating order. */
  function Alive(ps: seq<Player>): (r: seq<Player>)
    reads ps`isAlive
    ensures |r| <= |ps|
    ensures forall p <- r {:trigger p in r} :: p in ps && p.isAlive
    ensures forall p <- ps {:trigger p in ps} :: p.isAlive ==> p in r
    ensures DistinctNames(ps) ==> DistinctNames(r)
  {
    if ps == [] then []
    else
      var rest := Alive(ps[1..]);
      var head := if ps[0].isAlive then [ps[0]] else [];
      assert forall p <- ps {:trigger p in ps} :: p == ps[0] || p in ps[1..];
      assert DistinctNames(ps) ==> DistinctNames(head + rest) by {
        if DistinctNames(ps) {
          TailNamesDiffer(ps);
          ConsKeepsNamesDistinct(head, rest);
        }
      }
      assert forall i :: 0 <= i < |head + rest| ==> (head + rest)[i] in ps by {
        forall i | 0 <= i < |head + rest| ensures (head + rest)[i] in ps {
          if i >= |head| {
            var j := i - |head|;
            assert (head + rest)[i] == rest[j] && rest[j] in rest;
            var k :| 0 <= k < |ps[1..]| && ps[1..][k] == rest[j];
            assert ps[k + 1] == rest[j];
          }
        }
      }
      head + rest
  }

  /** `get_alive` keeps seating order: the living of a join are the living of each part, joined. */
  lemma {:induction false} AliveAppend(ps: seq<Player>, qs: seq<Player>)
    ensures Alive(ps + qs) == Alive(ps) + Alive(qs)
  {
    if ps == [] {
      assert ps + qs == qs;
    } else {
      assert (ps + qs)[0] == ps[0] && (ps + qs)[1..] == ps[1..] + qs;
      AliveAppend(ps[1..], qs);
    }
  }

  /** The players of `alive` whose names are not in `killed`, in seating order: who is left once they die. */
  function Survivors(alive: seq<Player>, killed: set<string>): (r: seq<Player>)
    ensures forall p <- r {:trigger p in r} :: p in alive && p.name !in killed
    ensures forall p <- alive {:trigger p in alive} :: p.name !in killed ==> p in r
  {
    if alive == [] then []
    else
      assert forall p <- alive {:trigger p in alive} :: p == alive[0] || p in alive[1..];
      (if alive[0].name !in killed then [alive[0]] else []) + Survivors(alive[1..], killed)
  }

  /** With nobody killed, everybody survives. */
  lemma {:induction false} SurvivorsOfNobody(alive: seq<Player>)
    ensures Survivors(alive, {}) == alive
  {
    if alive != [] {
      SurvivorsOfNobody(alive[1..]);
    }
  }

  /** The survivors keep seating order: the survivors of a join are the survivors of each part, joined. */
  lemma {:induction false} SurvivorsAppend(s: seq<Player>, t: seq<Player>, killed: set<string>)
    ensures Survivors(s + t, killed) == Survivors(s, killed) + Survivors(t, killed)
  {
    if s == [] {
      assert s + t == t;
    } else {
      assert (s + t)[0] == s[0] && (s + t)[1..] == s[1..] + t;
      SurvivorsAppend(s[1..], t, killed);
    }
  }

  /** `[p.role for p in ps]` */
  function RolesOf(ps: seq<Player>): (roles: seq<Role>)
    ensures |roles| == |ps| && forall i :: 0 <= i < |ps| ==> roles[i] == ps[i].role
  {
    seq(|ps|, i requires 0 <= i < |ps| => ps[i].role)
  }

  /** `[p for p in ps if p.role_key == r]` */
  function WithRole(ps: seq<Player>, r: Role): (q: seq<Player>)
    ensures forall i :: 0 <= i < |q| ==> q[i] in ps && q[i].role == r
    ensures forall p <- ps {:trigger p in ps} :: p.role == r ==> p in q
  {
    var q := Filter(ps, (p: Player) => p.role == r);
    assert forall i :: 0 <= i < |q| ==> q[i] in q;
    q
  }

  /** The first player `WithRole` keeps is the first player of `ps` with the role. */
  lemma WithRoleFirst(ps: seq<Player>, r: Role)
    requires WithRole(ps, r) != []
    ensures exists k :: 0 <= k < |ps| && ps[k] == WithRole(ps, r)[0] && forall j :: 0 <= j < k ==> ps[j].role != r
  {
    FilterFirst(ps, (p: Player) => p.role == r);
  }

  /** The players the wolves may attack: neither a Werewolf nor a Madman. */
  function Prey(ps: seq<Player>): (q: seq<Player>)
    ensures forall p <- q {:trigger p in q} :: p in ps && p.role != Werewolf && p.role != Madman
    ensures forall p <- ps {:trigger p in ps} :: p.role != Werewolf && p.role != Madman ==> p in q
  {
    Filter(ps, (p: Player) => p.role != Werewolf && p.role != Madman)
  }

  /**
   * Who the night's attack kills at the next morning: nobody on day 1, and
   * otherwise the (truthy) victim unless it is the guarded player.
   */
  function Attacked(day: int, victim: Option<string>, guard: Option<string>): (killed: set<string>)
    ensures killed != {} <==> day != 1 && Truthy(victim) && victim != guard
    ensures killed != {} ==> killed == {victim.value}
  {
    if day != 1 && Truthy(victim) && victim != guard then {victim.value} else {}
  }

  function WolfNames(ps: seq<Player>): set<string> {
    set p <- ps | p.role == Werewolf :: p.name
  }

  function HumanNames(ps: seq<Player>): set<string> {
    set p <- ps | p.role != Werewolf :: p.name
  }

  /** With distinct names no name is both a Werewolf's and a human's. */
  lemma WolfAndHumanNamesDisjoint(ps: seq<Player>)
    requires DistinctNames(ps)
    ensures WolfNames(ps) !! HumanNames(ps)
  {
    forall q, r | q in ps && r in ps && q.name == r.name ensures q.role == r.role {
      var i :| 0 <= i < |ps| && ps[i] == q;
      var j :| 0 <= j < |ps| && ps[j] == r;
      NameIdentifies(ps, i, j);
    }
  }

  /** `next(p for p in players if p.name == n)`: the first player named `n`. */
  function IndexOfName(ps: seq<Player>, n: string): (k: nat)
    requires n in NameSet(ps)
    ensures k < |ps| && ps[k].name == n
    ensures forall j :: 0 <= j < k ==> ps[j].name != n
  {
    if ps[0].name == n then 0
    else
      assert n in NameSet(ps[1..]) by {
        var q :| q in ps && q.name == n;
        var i :| 0 <= i < |ps| && ps[i] == q;
        assert i != 0 && ps[1..][i - 1] == q;
      }
      1 + IndexOfName(ps[1..], n)
  }

  /** `[p.current_target for p in alive]`, once every target is set. */
  function Ballots(alive: seq<Player>): (b: seq<string>)
    reads alive`currentTarget
    requires forall p <- alive :: p.currentTarget.Some?
    ensures |b| == |alive| && forall i {:trigger b[i]} :: 0 <= i < |alive| ==> b[i] == alive[i].currentTarget.value
  {
    if alive == [] then [] else [alive[0].currentTarget.value] + Ballots(alive[1..])
  }

  /** How many times `x` occurs in `s`. */
  function Occurrences(s: seq<string>, x: string): nat {
    if s == [] then 0 else Occurrences(s[..|s| - 1], x) + (if s[|s| - 1] == x then 1 else 0)
  }

  lemma {:induction false} OccurrencesOfAbsent(s: seq<string>, x: string)
    requires x !in s
    ensures Occurrences(s, x) == 0
  {
    if s != [] {
      OccurrencesOfAbsent(s[..|s| - 1], x);
    }
  }

  /** The elements of `s` in order of first appearance. */
  function FirstSeen(s: seq<string>): seq<string> {
    if s == [] then []
    else
      var prior := FirstSeen(s[..|s| - 1]);
      if s[|s| - 1] in prior then prior else prior + [s[|s| - 1]]
  }

  lemma {:induction false} FirstSeenMembers(s: seq<string>)
    ensures forall x :: x in FirstSeen(s) <==> x in s
  {
    if s != [] {
      FirstSeenMembers(s[..|s| - 1]);
      assert s == s[..|s| - 1] + [s[|s| - 1]];
    }
  }

  /**
   * `votes[b] = votes.get(b, 0) + 1` over the ballots: a name's first vote
   * appends it with count 1, a later vote bumps its count in place.
   */
  function Tally(ballots: seq<string>): (votes: Dict<string, nat>)
    ensures votes.Valid()
  {
    if ballots == [] then Empty()
    else
      var prior := Tally(ballots[..|ballots| - 1]);
      var b := ballots[|ballots| - 1];
      prior.Put(b, if b in prior.items then prior.items[b] + 1 else 1)
  }

  /** The tally has one entry per name voted for, in order of first vote. */
  lemma {:induction false} TallyKeys(ballots: seq<string>)
    ensures forall n :: n in Tally(ballots).items <==> n in ballots
    ensures Tally(ballots).keys == FirstSeen(ballots)
  {
    if ballots != [] {
      var init := ballots[..|ballots| - 1];
      TallyKeys(init);
      FirstSeenMembers(init);
      assert ballots == init + [ballots[|ballots| - 1]];
    }
  }

  /** Each entry of the tally holds how many ballots name it. */
  lemma {:induction false} TallyOccurrences(ballots: seq<string>)
    ensures forall n <- Tally(ballots).items :: Tally(ballots).items[n] == Occurrences(ballots, n)
  {
    if ballots != [] {
      var init := ballots[..|ballots| - 1];
      var b := ballots[|ballots| - 1];
      var prior := Tally(init);
      TallyOccurrences(init);
      TallyKeys(init);
      forall n <- Tally(ballots).items ensures Tally(ballots).items[n] == Occurrences(ballots, n) {
        assert Occurrences(ballots, n) == Occurrences(init, n) + (if b == n then 1 else 0);
        if n != b {
          assert n in prior.items;
        } else if b !in prior.items {
          OccurrencesOfAbsent(init, b);
        }
      }
    }
  }

  /** One more ballot adds one to a tally's total. */
  lemma TotalAfterBallot(prior: Dict<string, nat>, b: string)
    requires prior.Valid()
    ensures Total(prior.Put(b, if b in prior.items then prior.items[b] + 1 else 1)) == Total(prior) + 1
  {
    if b in prior.items {
      assert b in prior.keys;
      SumCountsBump(prior.keys, prior.items, b);
    } else {
      var t := prior.Put(b, 1);
      assert b !in prior.keys;
      SumCountsIgnores(prior.keys, prior.items, b, 1);
      assert t.keys[..|t.keys| - 1] == prior.keys;
    }
  }

  /** The counts of the tally add up to the number of ballots. */
  lemma {:induction false} TallyTotal(ballots: seq<string>)
    ensures Total(Tally(ballots)) == |ballots|
  {
    if ballots != [] {
      TallyTotal(ballots[..|ballots| - 1]);
      TotalAfterBallot(Tally(ballots[..|ballots| - 1]), ballots[|ballots| - 1]);
    }
  }

  /** The vote count loop of the execution phase. */
  method TallyVotes(ballots: seq<string>) returns (votes: Dict<string, nat>)
    ensures votes == Tally(ballots)
  {
    votes := Empty();
    for i := 0 to |ballots|
      invariant votes == Tally(ballots[..i])
    {
      assert ballots[..i + 1][..i] == ballots[..i];
      var b := ballots[i];
      votes := votes.Put(b, if b in votes.items then votes.items[b] + 1 else 1);
    }
    assert ballots[..|ballots|] == ballots;
  }

  /** Every name in the tally of the living players' ballots is a living player's. */
  lemma BallotsNamed(alive: seq<Player>)
    requires VoteTargetsNamed(alive)
    ensures forall n <- Tally(Ballots(alive)).items :: Named(alive, n)
  {
    var ballots := Ballots(alive);
    TallyKeys(ballots);
    forall n <- Tally(ballots).items ensures Named(alive, n) {
      assert n in ballots;
      var i :| 0 <= i < |ballots| && ballots[i] == n;
      assert alive[i].currentTarget.value == n;
    }
  }

  /** A name whose count tops the tally got at least as many ballots as any name at all. */
  lemma MostVoted(ballots: seq<string>, e: string)
    requires e in Tally(ballots).items
    requires forall n <- Tally(ballots).items :: Tally(ballots).items[n] <= Tally(ballots).items[e]
    ensures forall n :: Occurrences(ballots, n) <= Occurrences(ballots, e)
  {
    TallyKeys(ballots);
    TallyOccurrences(ballots);
    forall n ensures Occurrences(ballots, n) <= Occurrences(ballots, e) {
      if n !in ballots {
        OccurrencesOfAbsent(ballots, n);
      }
    }
  }

  /** `max(votes.values())` */
  function MaxCount(keys: seq<string>, items: map<string, nat>): (m: nat)
    requires forall k <- keys :: k in items
    ensures forall k <- keys :: items[k] <= m
    ensures keys != [] ==> exists k <- keys :: items[k] == m
  {
    if keys == [] then 0
    else
      var m := MaxCount(keys[1..], items);
      if items[keys[0]] >= m then items[keys[0]] else m
  }

  /** `[n for n, v in votes.items() if v == max_v]`, in key order. */
  function Leaders(votes: Dict<string, nat>): (c: seq<string>)
    requires votes.Valid()
    ensures forall n <- c :: n in votes.items && votes.items[n] == MaxCount(votes.keys, votes.items)
    ensures forall n <- votes.keys :: votes.items[n] == MaxCount(votes.keys, votes.items) ==> n in c
    ensures votes.keys != [] ==> c != []
  {
    var m := MaxCount(votes.keys, votes.items);
    Filter(votes.keys, (n: string) => n in votes.items && votes.items[n] == m)
  }

  /** `random.choice(cands)` among the most voted names, `pick` standing for the draw. */
  function Elected(votes: Dict<string, nat>, pick: nat): (e: string)
    requires votes.Valid() && votes.keys != []
    ensures e in votes.items
    ensures forall n <- votes.items :: votes.items[n] <= votes.items[e]
  {
    var leaders := Leaders(votes);
    leaders[pick % |leaders|]
  }

  /** The claims heard in a discussion: every claimant's name mapped to the claimed role. */
  function Claims(chats: seq<Event>): map<string, string> {
    if chats == [] then map[]
    else
      var last := chats[|chats| - 1];
      var prior := Claims(chats[..|chats| - 1]);
      if last.Chat? && IsRoleClaim(last.line) then prior[last.speaker := ClaimedRole] else prior
  }

  /** One more chat adds its speaker's claim, if it is one, to the claims before it. */
  lemma ClaimsSnoc(chats: seq<Event>, chat: Event)
    requires chat.Chat?
    ensures Claims(chats + [chat]) ==
              if IsRoleClaim(chat.line) then Claims(chats)[chat.speaker := ClaimedRole] else Claims(chats)
  {
    assert (chats + [chat])[..|chats|] == chats;
  }

  function Names(ps: seq<Player>): (names: seq<string>)
    ensures |names| == |ps| && forall i :: 0 <= i < |ps| ==> names[i] == ps[i].name
    ensures DistinctNames(ps) ==> Distinct(names)
  {
    var names := seq(|ps|, i requires 0 <= i < |ps| => ps[i].name);
    assert DistinctNames(ps) ==> Distinct(names) by {
      if DistinctNames(ps) {
        forall i, j | 0 <= i < j < |names| ensures Elem(names, i) != Elem(names, j) {
          assert NameAt(ps, i) != NameAt(ps, j);
        }
      }
    }
    names
  }

  /** The first loop of the world's constructor: one new player per cast row. */
  method Seat(cast: seq<CastMember>) returns (ps: seq<Player>)
    requires Distinct(CastNames(cast))
    ensures |ps| == |cast| && DistinctNames(ps)
    ensures forall i :: 0 <= i < |cast| ==>
              && fresh(ps[i]) && ps[i].Valid() && ps[i].Untouched()
              && ps[i].name == cast[i].name && ps[i].role == cast[i].role
              && ps[i].personality == cast[i].personality
    ensures forall p <- ps :: p.isAlive && p.white == {} && p.black == {} && p.trust == map[]
  {
    ps := [];
    for i := 0 to |cast|
      invariant |ps| == i
      invariant forall j :: 0 <= j < i ==>
                  && fresh(ps[j]) && ps[j].Valid() && ps[j].Untouched()
                  && ps[j].name == cast[j].name && ps[j].role == cast[j].role
                  && ps[j].personality == cast[j].personality
    {
      var p := new Player(cast[i].name, cast[i].role, cast[i].personality);
      ps := ps + [p];
    }
    forall i, j | 0 <= i < j < |ps| ensures NameAt(ps, i) != NameAt(ps, j) {
      assert Elem(CastNames(cast), i) != Elem(CastNames(cast), j);
    }
  }

  /** The second loop of the world's constructor: `p.init_trust(...)` for every player. */
  method DealTrust(ps: seq<Player>, noise: seq<seq<real>>)
    requires DistinctNames(ps)
    requires |noise| == |ps|
    requires forall i :: 0 <= i < |noise| ==> |noise[i]| == |ps| - 1
    requires forall i, j :: 0 <= i < |noise| && 0 <= j < |noise[i]| ==> -0.1 <= noise[i][j] <= 0.1
    requires forall p <- ps :: p.trust == map[]
    modifies ps`trust
    ensures forall i :: 0 <= i < |ps| ==> ps[i].trust == Jittered(map[], OtherNames(Names(ps), ps[i].name), noise[i])
  {
    var names := Names(ps);
    var others := seq(|ps|, j requires 0 <= j < |ps| => OtherNames(names, names[j]));
    assert forall j :: 0 <= j < |ps| ==> |others[j]| == |ps| - 1 by {
      forall j | 0 <= j < |ps| ensures |others[j]| == |ps| - 1 {
        assert names[j] in names;
      }
    }
    for i := 0 to |ps|
      invariant forall j :: 0 <= j < i ==> ps[j].trust == Jittered(map[], others[j], noise[j])
      invariant forall j :: i <= j < |ps| ==> ps[j].trust == map[]
    {
      Unique(ps, i);
      ps[i].InitTrust(others[i], noise[i]);
    }
  }

  /** The two loops of the world's constructor: seat the cast, then deal starting trust. */
  method Seed(cast: seq<CastMember>, noise: seq<seq<real>>) returns (ps: seq<Player>)
    requires Distinct(CastNames(cast))
    requires |noise| == |cast|
    requires forall i :: 0 <= i < |noise| ==> |noise[i]| == |cast| - 1
    requires forall i, j :: 0 <= i < |noise| && 0 <= j < |noise[i]| ==> -0.1 <= noise[i][j] <= 0.1
    ensures |ps| == |cast| && DistinctNames(ps)
    ensures forall i :: 0 <= i < |cast| ==>
              && fresh(ps[i])
              && ps[i].name == cast[i].name && ps[i].role == cast[i].role
              && ps[i].personality == cast[i].personality
              && ps[i].trust == Jittered(map[], OtherNames(CastNames(cast), cast[i].name), noise[i])
    ensures forall p <- ps :: p.isAlive && !p.revealedRole && p.Valid() && p.white == {} && p.black == {}
  {
    ps := Seat(cast);
    assert Names(ps) == CastNames(cast);
    DealTrust(ps, noise);
  }

  /** No Seer among `alive` has filed its own name as a wolf's. */
  predicate SeersHonest(alive: seq<Player>)
    reads alive`black
  {
    forall i :: 0 <= i < |alive| && alive[i].role == Seer ==> alive[i].name !in alive[i].black
  }

  /** The trust and the targets of `p` are as they were. */
  twostate predicate TargetsKept(p: Player)
    reads p`trust, p`currentTarget, p`currentGuardTarget
  {
    p.trust == old(p.trust) && p.currentTarget == old(p.currentTarget) && p.currentGuardTarget == old(p.currentGuardTarget)
  }

  /** `p` has planned its day from the trust and guard target it held in the old state. */
  twostate predicate PlanKept(p: Player, alive: seq<Player>, day: int, coin: real, pick: nat)
    reads p`strategy, p`trust, p`currentTarget, p`currentGuardTarget, p`black, p`white
  {
    p.PlanMade(alive, day, coin, pick, old(p.trust), old(p.currentGuardTarget))
  }

  /** `alive[i]` has planned its day with its own draws. */
  twostate predicate PlannedAt(alive: seq<Player>, i: nat, day: int, d: Draws)
    requires i < |alive| && DrawsFit(d, |alive|)
    reads alive`strategy, alive`trust, alive`currentTarget, alive`currentGuardTarget, alive`black, alive`white
  {
    PlanKept(alive[i], alive, day, d.strategyCoins[i], d.fallbackPicks[i])
  }

  /** Every living player's vote target is another living player. */
  predicate VoteTargetsNamed(alive: seq<Player>)
    reads alive`currentTarget
  {
    forall i :: 0 <= i < |alive| ==>
      alive[i].currentTarget.Some? && Named(alive, alive[i].currentTarget.value) && alive[i].currentTarget.value != alive[i].name
  }

  /** Every living player has planned its day. */
  twostate predicate Planned(alive: seq<Player>, day: int, d: Draws)
    requires DrawsFit(d, |alive|)
    reads alive`strategy, alive`trust, alive`currentTarget, alive`currentGuardTarget, alive`black, alive`white
  {
    forall i :: 0 <= i < |alive| ==> PlannedAt(alive, i, day, d)
  }

  /**
   * The discussion's first loop: every living player picks its strategy,
   * then its targets.
   */
  method PlanDay(alive: seq<Player>, day: int, d: Draws)
    requires SeersHonest(alive)
    requires DistinctNames(alive) && |alive| >= 2
    requires DrawsFit(d, |alive|)
    modifies alive`strategy, alive`trust, alive`currentTarget, alive`currentGuardTarget
    ensures Planned(alive, day, d)
  {
    for i := 0 to |alive|
      invariant forall j :: 0 <= j < i ==>
                  alive[j].PlanMade(alive, day, d.strategyCoins[j], d.fallbackPicks[j], old(alive[j].trust), old(alive[j].currentGuardTarget))
      invariant forall j :: i <= j < |alive| ==> unchanged(alive[j])
    {
      Unique(alive, i);
      var p := alive[i];
      assert p.trust == old(p.trust) && p.currentGuardTarget == old(p.currentGuardTarget);
      OthersNonEmpty(alive, p.name);
      p.Plan(day, d.strategyCoins[i], alive, d.fallbackPicks[i]);
    }
  }

  /**
   * `chat` is what `p` said: its own line, which is a role claim exactly
   * when `p` is a Seer with a result to reveal on day 2; `p` is marked as
   * having come out when it was already or when it claimed.
   */
  twostate predicate Spoke(chat: Event, p: Player, day: int)
    reads p`coStatus, p`seerReports
  {
    && chat.Chat? && chat.speaker == p.name
    && (IsRoleClaim(chat.line) <==> p.role == Seer && day == 2 && p.seerReports.keys != [])
    && p.coStatus == (old(p.coStatus) || IsRoleClaim(chat.line))
  }

  /**
   * Every living player said one line, in seating order, and every living
   * player has recorded exactly the role claims among those lines.
   */
  twostate predicate Spoken(alive: seq<Player>, chats: seq<Event>, day: int)
    reads alive`coStatus, alive`seerReports, alive`coHistory
  {
    && |chats| == |alive|
    && (forall i :: 0 <= i < |alive| ==> Spoke(chats[i], alive[i], day))
    && forall p <- alive :: p.coHistory == old(p.coHistory) + Claims(chats)
  }

  /** The discussion's outcome: every living player planned its day, then spoke. */
  twostate predicate Discussed(alive: seq<Player>, chats: seq<Event>, day: int, d: Draws)
    requires DrawsFit(d, |alive|)
    reads alive`strategy, alive`trust, alive`currentTarget, alive`currentGuardTarget, alive`black, alive`white
    reads alive`coStatus, alive`seerReports, alive`coHistory
  {
    Planned(alive, day, d) && Spoken(alive, chats, day)
  }

  /** The discussion: every living player plans its day, then everyone speaks in turn. */
  method Discuss(alive: seq<Player>, day: int, d: Draws) returns (chats: seq<Event>)
    requires SeersHonest(alive) && DistinctNames(alive) && |alive| >= 2
    requires forall i :: 0 <= i < |alive| ==> alive[i].Valid()
    requires DrawsFit(d, |alive|)
    modifies alive`strategy, alive`trust, alive`currentTarget, alive`currentGuardTarget
    modifies alive`coStatus, alive`coHistory
    ensures Discussed(alive, chats, day, d) && VoteTargetsNamed(alive)
  {
    PlanDay(alive, day, d);
    forall i | 0 <= i < |alive|
      ensures alive[i].currentTarget.Some? && Named(alive, alive[i].currentTarget.value) && alive[i].currentTarget.value != alive[i].name
    {
      assert PlannedAt(alive, i, day, d);
    }
    chats := Converse(alive, day, d);
  }

  /**
   * `for op in alive: op.learn(day, "CO", (claimant, "役職"))`: every
   * living player, the claimant included, records the claim.
   */
  method AnnounceClaim(alive: seq<Player>, claimant: string)
    requires DistinctNames(alive)
    modifies alive`coHistory
    ensures forall p <- alive :: p.coHistory == old(p.coHistory)[claimant := ClaimedRole]
  {
    for i := 0 to |alive|
      invariant forall j :: 0 <= j < i ==> alive[j].coHistory == old(alive[j].coHistory)[claimant := ClaimedRole]
      invariant forall j :: i <= j < |alive| ==> alive[j].coHistory == old(alive[j].coHistory)
    {
      Unique(alive, i);
      alive[i].NoteClaim(claimant, ClaimedRole);
    }
  }

  /**
   * The discussion's second loop: every living player speaks in seating
   * order; a role claim is recorded by every living player.
   */
  method Converse(alive: seq<Player>, day: int, d: Draws) returns (chats: seq<Event>)
    requires forall i :: 0 <= i < |alive| ==> alive[i].Valid()
    requires DistinctNames(alive)
    requires DrawsFit(d, |alive|)
    modifies alive`coStatus, alive`coHistory
    ensures Spoken(alive, chats, day)
  {
    chats := [];
    for i := 0 to |alive|
      invariant |chats| == i
      invariant forall j :: 0 <= j < i ==> Spoke(chats[j], alive[j], day)
      invariant forall j :: i <= j < |alive| ==> alive[j].coStatus == old(alive[j].coStatus)
      invariant forall p <- alive :: p.coHistory == old(p.coHistory) + Claims(chats)
    {
      var chat := SpeakInTurn(alive, i, day, d.dialogueCoins[i]);
      ClaimsSnoc(chats, chat);
      forall p <- alive ensures p.coHistory == old(p.coHistory) + Claims(chats + [chat]) {
        if IsRoleClaim(chat.line) {
          assert (old(p.coHistory) + Claims(chats))[chat.speaker := ClaimedRole]
              == old(p.coHistory) + Claims(chats)[chat.speaker := ClaimedRole];
        }
      }
      chats := chats + [chat];
    }
  }

  /** One turn of the discussion: `alive[i]` speaks, and a role claim is announced to everyone. */
  method SpeakInTurn(alive: seq<Player>, i: nat, day: int, coin: real) returns (chat: Event)
    requires i < |alive| && alive[i].Valid()
    requires DistinctNames(alive)
    requires 0.0 <= coin < 1.0
    modifies alive`coStatus, alive`coHistory
    ensures Spoke(chat, alive[i], day)
    ensures forall j :: 0 <= j < |alive| && j != i ==> alive[j].coStatus == old(alive[j].coStatus)
    ensures forall p <- alive :: p.coHistory == (if IsRoleClaim(chat.line) then old(p.coHistory)[chat.speaker := ClaimedRole] else old(p.coHistory))
  {
    Unique(alive, i);
    var p := alive[i];
    var line := p.Speak(day, coin);
    chat := Chat(p.name, line);
    if IsRoleClaim(line) {
      AnnounceClaim(alive, p.name);
    }
  }

  /** `for p in alive: p.learn(day, "VOTE", votes)` */
  method RecordVotes(alive: seq<Player>, day: int, votes: Dict<string, nat>)
    requires DistinctNames(alive)
    modifies alive`voteHistory
    ensures forall p <- alive :: p.voteHistory == old(p.voteHistory)[day := votes]
  {
    for i := 0 to |alive|
      invariant forall j :: 0 <= j < i ==> alive[j].voteHistory == old(alive[j].voteHistory)[day := votes]
      invariant forall j :: i <= j < |alive| ==> alive[j].voteHistory == old(alive[j].voteHistory)
    {
      Unique(alive, i);
      alive[i].NoteVotes(day, votes);
    }
  }

  /**
   * `votes[p.current_target] = votes.get(p.current_target, 0) + 1` over the
   * living players, then `p.learn(day, "VOTE", votes)` for each of them.
   */
  method CountVotes(alive: seq<Player>, day: int) returns (votes: Dict<string, nat>)
    requires DistinctNames(alive) && alive != []
    requires VoteTargetsNamed(alive)
    modifies alive`voteHistory
    ensures votes == Tally(Ballots(alive)) && votes.keys != []
    ensures forall p <- alive :: p.voteHistory == old(p.voteHistory)[day := votes]
    ensures forall n <- votes.items :: Named(alive, n)
  {
    var ballots := Ballots(alive);
    votes := TallyVotes(ballots);
    TallyKeys(ballots);
    RecordVotes(alive, day, votes);
    assert ballots[0] in votes.items;
    BallotsNamed(alive);
  }

  /**
   * The vote elects `execName`: every living player cast a ballot, and
   * nobody got more ballots than `execName`, a living player.
   */
  ghost predicate Elects(alive: seq<Player>, execName: string)
    reads alive`currentTarget
  {
    && (forall p <- alive :: p.currentTarget.Some?)
    && execName in NameSet(alive)
    && forall n :: Occurrences(Ballots(alive), n) <= Occurrences(Ballots(alive), execName)
  }

  /** The evening vote: the ballots are counted and recorded, and one of the most voted is chosen. */
  method Vote(alive: seq<Player>, day: int, pick: nat) returns (execName: string)
    requires DistinctNames(alive) && alive != []
    requires VoteTargetsNamed(alive)
    modifies alive`voteHistory
    ensures Elects(alive, execName)
    ensures forall p <- alive :: p.voteHistory == old(p.voteHistory)[day := Tally(Ballots(alive))]
  {
    var votes := CountVotes(alive, day);
    execName := Elected(votes, pick);
    NamedIsNameSet(alive, execName);
    MostVoted(Ballots(alive), execName);
  }

  /** The discussion followed by the vote. */
  method Deliberate(alive: seq<Player>, day: int, d: Draws) returns (chats: seq<Event>, execName: string)
    requires SeersHonest(alive) && DistinctNames(alive) && |alive| >= 2
    requires forall i :: 0 <= i < |alive| ==> alive[i].Valid()
    requires DrawsFit(d, |alive|)
    modifies alive`strategy, alive`trust, alive`currentTarget, alive`currentGuardTarget
    modifies alive`coStatus, alive`coHistory, alive`voteHistory
    ensures Discussed(alive, chats, day, d)
    ensures Elects(alive, execName)
    ensures forall p <- alive :: p.voteHistory == old(p.voteHistory)[day := Tally(Ballots(alive))]
  {
    chats := Discuss(alive, day, d);
    execName := Vote(alive, day, d.execPick);
  }

  /**
   * The discussion and the vote as the rest of the day needs them: one
   * line per living player and the name of a living player to execute.
   */
  method Debate(alive: seq<Player>, day: int, d: Draws) returns (chats: seq<Event>, execName: string)
    requires SeersHonest(alive) && DistinctNames(alive) && |alive| >= 2
    requires forall i :: 0 <= i < |alive| ==> alive[i].Valid()
    requires DrawsFit(d, |alive|)
    modifies alive`strategy, alive`trust, alive`currentTarget, alive`currentGuardTarget
    modifies alive`coStatus, alive`coHistory, alive`voteHistory
    ensures |chats| == |alive| && execName in NameSet(alive)
  {
    chats, execName := Deliberate(alive, day, d);
  }

  /**
   * The Bodyguard's night: with no living Bodyguard nobody is guarded and
   * nobody's targets change; otherwise only the first living Bodyguard
   * selects its targets again, and the night's guard is its guard target,
   * the other living player it trusted most.
   */
  twostate predicate Guarded(na: seq<Player>, pick: nat, new guard: Option<string>)
    reads na`trust, na`currentTarget, na`currentGuardTarget, na`black, na`white, na`strategy
  {
    var knights := WithRole(na, Bodyguard);
    if knights == [] then
      guard == None && forall p <- na :: TargetsKept(p)
    else
      var k := knights[0];
      && k in na
      && (forall p <- na :: p != k ==> TargetsKept(p))
      && if Others(na, k.name) == [] then TargetsKept(k) && guard == k.currentGuardTarget
         else k.Targeted(na, pick, old(k.trust), old(k.currentGuardTarget)) && guard == Some(GuardChoice(Others(na, k.name), old(k.trust)))
  }

  /** The first Bodyguard of `na`, if any, has a trust that agrees with what it knows. */
  predicate KnightSettled(na: seq<Player>)
    reads na`trust, na`black, na`white
  {
    var knights := WithRole(na, Bodyguard);
    knights != [] ==> knights[0].Settled()
  }

  /**
   * The guard of `na`: nobody without a Bodyguard; otherwise the other
   * player the first Bodyguard trusts most.
   */
  function GuardOf(na: seq<Player>): (guard: Option<string>)
    reads na`trust
  {
    var knights := WithRole(na, Bodyguard);
    if knights == [] then None
    else
      var others := Others(na, knights[0].name);
      if others == [] then None else Some(GuardChoice(others, knights[0].trust))
  }

  /** The victim among the living players of `ps`: the one, neither Werewolf nor Madman, that `pick` selects. */
  function VictimOf(ps: seq<Player>, pick: nat): Option<string>
    reads ps`isAlive
  {
    var prey := Prey(Alive(ps));
    if prey == [] then None else Some(prey[pick % |prey|].name)
  }

  /** The guard among the living players of `ps`. */
  function LivingGuard(ps: seq<Player>): Option<string>
    reads ps`isAlive, ps`trust
  {
    var na := Alive(ps);
    assert forall i :: 0 <= i < |na| ==> na[i] in na;
    GuardOf(na)
  }

  /** `p` has filed `result` about `target`: a wolf result among its blacks, any other among its whites. */
  twostate predicate FiledAs(p: Player, target: string, result: string)
    reads p`black, p`white
  {
    && p.black == (if result == WolfResult then old(p.black) + {target} else old(p.black))
    && p.white == (if result != WolfResult then old(p.white) + {target} else old(p.white))
  }

  /** The player who makes the night's sighting: the first living Seer, and only on day 1. */
  function SeerAt(na: seq<Player>, day: int): (s: set<Player>)
    ensures |s| <= 1 && forall p <- s :: p in na && p.role == Seer
  {
    var seers := WithRole(na, Seer);
    if day == 1 && seers != [] then {seers[0]} else {}
  }

  /** The player who files the last execution: the first living Medium, once somebody has been executed. */
  function MediumAt(na: seq<Player>, info: Option<ExecInfo>): (m: set<Player>)
    ensures |m| <= 1 && forall p <- m :: p in na && p.role == Medium
  {
    var mediums := WithRole(na, Medium);
    if info.Some? && mediums != [] then {mediums[0]} else {}
  }

  /** The Bodyguard's night, as `Guarded` states it. */
  method Guard(na: seq<Player>, pick: nat) returns (guard: Option<string>)
    modifies na`trust, na`currentTarget, na`currentGuardTarget
    ensures Guarded(na, pick, guard)
  {
    var knights := WithRole(na, Bodyguard);
    guard := None;
    if knights != [] {
      var k := knights[0];
      assert k in knights && k in na;
      k.NightWatch(na, pick);
      guard := k.currentGuardTarget;
    }
  }

  /**
   * The guard when the first Bodyguard's trust already agrees with what it
   * knows: re-pinning leaves that trust as it was, so the guard can be read
   * off the trust after the night as well as before it.
   */
  method Protect(na: seq<Player>, pick: nat) returns (guard: Option<string>)
    requires DistinctNames(na) && |na| >= 2 && KnightSettled(na)
    modifies na`trust, na`currentTarget, na`currentGuardTarget
    ensures guard == GuardOf(na)
  {
    guard := Guard(na, pick);
    var knights := WithRole(na, Bodyguard);
    if knights != [] {
      OthersNonEmpty(na, knights[0].name);
      assert knights[0].trust == old(knights[0].trust);
    }
  }

  /** Who is alive depends only on the players' alive flags. */
  twostate lemma AliveKept(ps: seq<Player>)
    requires forall p <- ps :: p.isAlive == old(p.isAlive)
    ensures Alive(ps) == old(Alive(ps))
  {
    if ps != [] {
      AliveKept(ps[1..]);
    }
  }

  class WerewolfWorld {
    const players: seq<Player>
    var day: int
    var logs: seq<LogRecord>
    var gameOver: bool
    var winner: Option<Winner>
    /** The session entries `night_victim`, `night_guard` and `last_exec_info`. */
    var nightVictim: Option<string>
    var nightGuard: Option<string>
    var lastExecInfo: Option<ExecInfo>
    /** The names of the players who have died so far. */
    ghost var dead: set<string>

    /**
     * Names are unique; whatever a player has filed as wolf is a Werewolf's
     * name and whatever it has filed as human is not; a Bodyguard, which
     * makes no sightings, has filed nothing.
     */
    ghost predicate KnowledgeSound()
      reads players`white, players`black, players`seerReports
    {
      && DistinctNames(players)
      && forall p <- players {:trigger p in players} ::
           && p.Valid() && p.black <= WolfNames(players) && p.white <= HumanNames(players)
           && (p.role == Bodyguard ==> p.black == {} && p.white == {})
    }

    /** A player is dead, and its role revealed, exactly when its name is among the dead. */
    ghost predicate Fates()
      reads this`dead, players`isAlive, players`revealedRole
    {
      forall p <- players {:trigger p in players} :: p.isAlive == (p.name !in dead) && p.revealedRole == (p.name in dead)
    }

    /** The game is over exactly when a winner is recorded, and that winner is the verdict on the living. */
    ghost predicate WinRecorded()
      reads this`gameOver, this`winner, players`isAlive
    {
      && (gameOver <==> winner.Some?)
      && (gameOver ==> winner == Verdict(RolesOf(Alive(players))))
    }

    /**
     * No more log records than days; the pending victim and the last
     * execution name real players, and the latter happened no later than
     * today and carries the result a sighting of that player gives.
     */
    ghost predicate Bookkeeping()
      reads this`day, this`logs, this`nightVictim, this`lastExecInfo
    {
      && 0 <= day && |logs| <= day
      && (nightVictim.Some? ==> nightVictim.value in NameSet(players))
      && (lastExecInfo.Some? ==> lastExecInfo.value.day <= day)
      && (lastExecInfo.Some? ==>
            exists p <- players {:trigger p in players} :: p.name == lastExecInfo.value.name && lastExecInfo.value.result == SightingResult(p.role))
    }

    ghost predicate Valid()
      reads this, players`isAlive, players`revealedRole, players`white, players`black, players`seerReports
    {
      KnowledgeSound() && Fates() && WinRecorded() && Bookkeeping()
    }

    /** The morning kill happens: a (truthy) victim that was not the guarded player. */
    predicate AttackLands()
      reads this
    {
      Truthy(nightVictim) && nightVictim != nightGuard
    }

    /** The player executed on the current day, when the day got that far. */
    function Executed(): set<string>
      reads this`day, this`lastExecInfo
    {
      if lastExecInfo.Some? && lastExecInfo.value.day == day then {lastExecInfo.value.name} else {}
    }

    /**
     * Exactly the players named in `names` died: they join the dead. Under
     * `Fates`, this means they are dead with their roles revealed and every
     * other player's alive and revealed flags are as they were (`Deaths`).
     */
    twostate predicate Killed(names: set<string>)
      reads this`dead
    {
      dead == old(dead) + names
    }

    /** When exactly the players named in `killed` die, the living are the survivors of those living before. */
    twostate lemma AliveAfter(killed: set<string>)
      requires old(Fates()) && Fates() && Killed(killed)
      ensures Alive(players) == Survivors(old(Alive(players)), killed)
    {
      Deaths(killed);
      var k := |players|;
      while k > 0
        invariant 0 <= k <= |players|
        invariant Alive(players[k..]) == Survivors(old(Alive(players[k..])), killed)
      {
        k := k - 1;
        assert players[k..][1..] == players[k + 1..];
        var before := if old(players[k].isAlive) then [players[k]] else [];
        SurvivorsAppend(before, old(Alive(players[k + 1..])), killed);
      }
    }

    /** What `Killed` means for each player, given `Fates` before and after. */
    twostate lemma Deaths(names: set<string>)
      requires old(Fates()) && Fates() && Killed(names)
      ensures forall p <- players ::
                && p.isAlive == (old(p.isAlive) && p.name !in names)
                && p.revealedRole == (old(p.revealedRole) || p.name in names)
    {
    }

    /** The night's victim is the living player, neither Werewolf nor Madman, that `pick` selects. */
    predicate VictimChosen(pick: nat)
      reads this`nightVictim, players`isAlive
    {
      nightVictim.Some? && nightVictim == VictimOf(players, pick)
    }

    /**
     * The night's guard: nobody without a living Bodyguard; otherwise the
     * other living player the first living Bodyguard trusts most.
     */
    predicate GuardChosen()
      reads this`nightGuard, players`isAlive, players`trust
    {
      nightGuard == LivingGuard(players)
    }

    /** A Bodyguard has filed nothing, so its trust already agrees with what it knows. */
    lemma KnightsSettled()
      requires KnowledgeSound()
      ensures KnightSettled(Alive(players))
    {
      var knights := WithRole(Alive(players), Bodyguard);
      if knights != [] {
        var k := knights[0];
        assert k in Alive(players);
        assert Pinned(k.trust, {}, {}) == k.trust;
      }
    }

    /**
     * Seats the cast in order and gives every player starting trust towards
     * every other; `noise[i]` holds player i's jitter draws.
     */
    constructor (cast: seq<CastMember>, noise: seq<seq<real>>)
      requires Distinct(CastNames(cast))
      requires |noise| == |cast|
      requires forall i :: 0 <= i < |noise| ==> |noise[i]| == |cast| - 1
      requires forall i, j :: 0 <= i < |noise| && 0 <= j < |noise[i]| ==> -0.1 <= noise[i][j] <= 0.1
      ensures Valid()
      ensures |players| == |cast| && forall p <- players :: fresh(p) && p.isAlive
      ensures forall i :: 0 <= i < |cast| ==>
                && players[i].name == cast[i].name && players[i].role == cast[i].role
                && players[i].personality == cast[i].personality
                && players[i].trust == Jittered(map[], OtherNames(CastNames(cast), cast[i].name), noise[i])
      ensures day == 0 && logs == [] && !gameOver && winner == None
      ensures nightVictim == None && nightGuard == None && lastExecInfo == None
    {
      var ps := Seed(cast, noise);
      players := ps;
      day := 0;
      logs := [];
      gameOver, winner := false, None;
      nightVictim, nightGuard, lastExecInfo := None, None, None;
      dead := {};
    }

    /**
     * `check_win_simple`: when the living players hold a verdict the game is
     * over, the winner is recorded and a win event is added; otherwise
     * nothing changes.
     */
    method CheckWinSimple(events: seq<Event>) returns (won: bool, out: seq<Event>)
      requires Valid()
      modifies this`gameOver, this`winner
      ensures Valid()
      ensures won == Verdict(RolesOf(Alive(players))).Some?
      ensures won ==> gameOver && winner == Verdict(RolesOf(Alive(players))) && out == events + [Win(winner.value)]
      ensures !won ==> gameOver == old(gameOver) && winner == old(winner) && out == events
    {
      var alive := Alive(players);
      var w := CountWolves(RolesOf(alive));
      var v := |alive| - w;
      if w == 0 {
        gameOver, winner := true, Some(Citizens);
        return true, events + [Win(Citizens)];
      }
      if w >= v {
        gameOver, winner := true, Some(Werewolves);
        return true, events + [Win(Werewolves)];
      }
      return false, events;
    }

    /** A Seer never files its own name as a wolf's. */
    lemma SeerNotSelfBlack(alive: seq<Player>)
      requires KnowledgeSound()
      requires forall i :: 0 <= i < |alive| ==> alive[i] in players
      ensures SeersHonest(alive)
    {
      WolfAndHumanNamesDisjoint(players);
      forall i | 0 <= i < |alive| && alive[i].role == Seer ensures alive[i].name !in alive[i].black {
        assert alive[i].name in HumanNames(players);
      }
    }

    /**
     * The morning: on day 1 only the opening banner; later, the night's
     * victim dies unless it was guarded or there was none.
     */
    method Morning() returns (events: seq<Event>)
      requires Valid() && !gameOver && day >= 1
      modifies players`isAlive, players`revealedRole, this`dead
      ensures Valid()
      ensures Killed(Attacked(day, nightVictim, nightGuard))
      ensures day == 1 ==> events == [FirstMorning]
      ensures day != 1 && !AttackLands() ==> events == [PeacefulMorning]
      ensures day != 1 && AttackLands() ==>
                var v := players[IndexOfName(players, nightVictim.value)];
                v.name == nightVictim.value && events == [Death(v.name, v.role)]
    {
      if day == 1 {
        return [FirstMorning];
      }
      if AttackLands() {
        var v := players[IndexOfName(players, nightVictim.value)];
        v.Die();
        dead := dead + {v.name};
        forall p <- players | p.name == v.name ensures p == v {
          SameNameSamePlayer(players, p, v);
        }
        return [Death(v.name, v.role)];
      }
      return [PeacefulMorning];
    }

    /**
     * `executed.is_alive, executed.revealed_role = False, True` for the
     * living player named `execName`, and the Medium's record of it.
     */
    method Execute(alive: seq<Player>, execName: string)
      requires Valid() && !gameOver
      requires forall p <- alive :: p in players && p.isAlive
      requires execName in NameSet(alive)
      modifies players`isAlive, players`revealedRole, this`dead, this`lastExecInfo
      ensures Valid() && execName in NameSet(players) && day == old(day) && logs == old(logs)
      ensures nightVictim == old(nightVictim) && nightGuard == old(nightGuard)
      ensures Killed({execName}) && execName !in old(dead)
      ensures var x := players[IndexOfName(players, execName)];
                && x.name == execName && old(x.isAlive)
                && lastExecInfo == Some(ExecInfo(day, execName, SightingResult(x.role)))
    {
      var q :| q in alive && q.name == execName;
      var x := players[IndexOfName(players, execName)];
      SameNameSamePlayer(players, q, x);
      x.Die();
      dead := dead + {execName};
      forall p <- players | p.name == execName ensures p == x {
        SameNameSamePlayer(players, p, x);
      }
      lastExecInfo := Some(ExecInfo(day, x.name, SightingResult(x.role)));
    }

    /**
     * The execution and the second win check: `execName` dies and the
     * Medium's record of it is kept; a verdict ends the day with a log
     * record naming only the executed player.
     */
    method Judge(alive: seq<Player>, execName: string, events: seq<Event>) returns (out: seq<Event>, won: bool)
      requires Valid() && !gameOver && |logs| < day
      requires alive == Alive(players) && execName in NameSet(alive)
      modifies players`isAlive, players`revealedRole, this`dead, this`lastExecInfo, this`gameOver, this`winner, this`logs
      ensures Valid() && day == old(day) && nightVictim == old(nightVictim) && nightGuard == old(nightGuard)
      ensures Killed({execName}) && execName !in old(dead)
      ensures won <==> gameOver
      ensures var x := players[IndexOfName(players, execName)];
                && x.name == execName && lastExecInfo == Some(ExecInfo(day, execName, SightingResult(x.role)))
                && out == events + [Execution(execName, x.role)] + (if won then [Win(winner.value)] else [])
      ensures won ==> logs == old(logs) + [LogRecord(day, out, Meta(Some(execName), None, None))]
      ensures won ==> DayLogged(old(logs))
      ensures !won ==> logs == old(logs) && Verdict(RolesOf(Alive(players))) == None
    {
      Execute(alive, execName);
      var x := players[IndexOfName(players, execName)];
      won, out := Conclude(events + [Execution(x.name, x.role)], Meta(Some(execName), None, None));
    }

    /**
     * The Seer's first-night sighting of `t`: the true result is filed.
     */
    method Divine(s: Player, t: Player)
      requires Valid() && !gameOver && s in players && s.role == Seer && t in players
      modifies s`seerReports, s`white, s`black
      ensures Valid() && unchanged(this)
      ensures Alive(players) == old(Alive(players)) && LivingGuard(players) == old(LivingGuard(players))
      ensures s.seerReports == old(s.seerReports).Put(t.name, SightingResult(t.role))
      ensures FiledAs(s, t.name, SightingResult(t.role))
    {
      ghost var na := Alive(players);
      forall i | 0 <= i < |na| ensures na[i] in players {
        assert na[i] in na;
      }
      assert forall i :: 0 <= i < |players| ==> allocated(players[i]);
      s.NoteSeerReport(t.name, SightingResult(t.role));
      SightingsSound(s, t);
      AliveKept(players);
    }

    /** Filing a true sighting of a player keeps every player's knowledge sound. */
    lemma SightingsSound(s: Player, t: Player)
      requires s in players && s.role != Bodyguard && t in players
      requires forall p <- players :: p.Valid()
      requires forall p <- players :: p != s ==> p.black <= WolfNames(players) && p.white <= HumanNames(players)
      requires forall p <- players :: p != s && p.role == Bodyguard ==> p.black == {} && p.white == {}
      requires s.black <= WolfNames(players) + (if t.role == Werewolf then {t.name} else {})
      requires s.white <= HumanNames(players) + (if t.role != Werewolf then {t.name} else {})
      requires DistinctNames(players)
      ensures KnowledgeSound()
    {
    }

    /**
     * The Medium's night: the last execution's result, which is always set
     * by then, is filed.
     */
    method Channel(m: Player)
      requires Valid() && !gameOver && m in players && m.role == Medium && lastExecInfo.Some?
      modifies m`mediumReports, m`white, m`black
      ensures Valid() && unchanged(this)
      ensures Alive(players) == old(Alive(players)) && LivingGuard(players) == old(LivingGuard(players))
      ensures var info := lastExecInfo.value;
              && m.mediumReports == old(m.mediumReports)[info.day := (info.name, info.result)]
              && FiledAs(m, info.name, info.result)
    {
      ghost var na := Alive(players);
      forall i | 0 <= i < |na| ensures na[i] in players {
        assert na[i] in na;
      }
      var info := lastExecInfo.value;
      var t :| t in players && t.name == info.name && info.result == SightingResult(t.role);
      assert forall i :: 0 <= i < |players| ==> allocated(players[i]);
      m.NoteMediumReport(info.day, info.name, info.result);
      SightingsSound(m, t);
      AliveKept(players);
    }

    /**
     * The night's attack and guard: the victim is the living player,
     * neither Werewolf nor Madman, that `victimPick` selects, and the
     * guard is the first living Bodyguard's most trusted other player.
     */
    method Watch(d: Draws)
      requires Valid() && !gameOver
      requires Verdict(RolesOf(Alive(players))) == None && Prey(Alive(players)) != []
      modifies this`nightVictim, this`nightGuard, players`trust, players`currentTarget, players`currentGuardTarget
      ensures Valid() && !gameOver
      ensures day == old(day) && logs == old(logs) && lastExecInfo == old(lastExecInfo) && dead == old(dead)
      ensures VictimChosen(d.victimPick) && GuardChosen()
    {
      ChooseVictim(d.victimPick);
      ChooseGuard(d.guardPick);
    }

    /** The night's victim: the living player, neither Werewolf nor Madman, that `pick` selects. */
    method ChooseVictim(pick: nat)
      requires Valid() && Prey(Alive(players)) != []
      modifies this`nightVictim
      ensures Valid() && VictimChosen(pick)
      ensures day == old(day) && logs == old(logs) && lastExecInfo == old(lastExecInfo) && dead == old(dead)
    {
      var prey := Prey(Alive(players));
      var victim := prey[pick % |prey|];
      assert victim in prey;
      nightVictim := Some(victim.name);
    }

    /** The night's guard: the Bodyguard re-pins its trust and picks its most trusted other player. */
    method ChooseGuard(pick: nat)
      requires Valid() && Verdict(RolesOf(Alive(players))) == None
      modifies this`nightGuard, players`trust, players`currentTarget, players`currentGuardTarget
      ensures Valid() && GuardChosen()
      ensures day == old(day) && logs == old(logs) && lastExecInfo == old(lastExecInfo) && dead == old(dead)
    {
      var guard := Guarding(pick);
      SetGuard(guard);
    }

    /** Saves the night's guard in the session. */
    method SetGuard(guard: Option<string>)
      requires Valid()
      modifies this`nightGuard
      ensures Valid() && nightGuard == guard
      ensures day == old(day) && logs == old(logs) && lastExecInfo == old(lastExecInfo) && dead == old(dead)
    {
      nightGuard := guard;
    }

    /** The first living Bodyguard's night turn, which returns the guard it picks. */
    method Guarding(pick: nat) returns (guard: Option<string>)
      requires Valid() && Verdict(RolesOf(Alive(players))) == None
      modifies players`trust, players`currentTarget, players`currentGuardTarget
      ensures Valid() && guard == LivingGuard(players) && unchanged(this)
    {
      var na := Alive(players);
      assert |RolesOf(na)| >= 3;
      forall i | 0 <= i < |na| ensures na[i] in players {
        assert na[i] in na;
      }
      KnightsSettled();
      guard := Protect(na, pick);
      AliveKept(players);
    }

    /**
     * The Seer's night: on day 1 the first living Seer sights the living
     * player other than itself that `seerPick` selects; on any other day,
     * or with no living Seer, nobody's reports or filings change.
     */
    method Sight(na: seq<Player>, d: Draws)
      requires Valid() && !gameOver && DistinctNames(na) && |na| >= 2
      requires forall i :: 0 <= i < |na| ==> na[i] in players
      modifies SeerAt(na, day)`seerReports, SeerAt(na, day)`white, SeerAt(na, day)`black
      ensures Valid() && unchanged(this)
      ensures Alive(players) == old(Alive(players)) && LivingGuard(players) == old(LivingGuard(players))
      ensures day != 1 ==> forall p <- players :: p.seerReports == old(p.seerReports)
      ensures var seers := WithRole(na, Seer);
              day == 1 && seers != [] ==>
                var others := Others(na, seers[0].name);
                others != [] &&
                var t := others[d.seerPick % |others|];
                && seers[0].seerReports == old(seers[0].seerReports).Put(t.name, SightingResult(t.role))
                && FiledAs(seers[0], t.name, SightingResult(t.role))
    {
      var seers := WithRole(na, Seer);
      if day == 1 && seers != [] {
        OthersNonEmpty(na, seers[0].name);
        var others := Others(na, seers[0].name);
        var t := others[d.seerPick % |others|];
        assert seers[0] in na && t in na;
        Divine(seers[0], t);
      }
    }

    /**
     * The Medium's night: the first living Medium files the last
     * execution, when there was one; otherwise nobody's reports or
     * filings change.
     */
    method Consult(na: seq<Player>)
      requires Valid() && !gameOver
      requires forall i :: 0 <= i < |na| ==> na[i] in players
      modifies MediumAt(na, lastExecInfo)`mediumReports, MediumAt(na, lastExecInfo)`white, MediumAt(na, lastExecInfo)`black
      ensures Valid() && unchanged(this)
      ensures Alive(players) == old(Alive(players)) && LivingGuard(players) == old(LivingGuard(players))
      ensures var mediums := WithRole(na, Medium);
              mediums != [] && lastExecInfo.Some? ==>
                var info := lastExecInfo.value;
                && mediums[0].mediumReports == old(mediums[0].mediumReports)[info.day := (info.name, info.result)]
                && FiledAs(mediums[0], info.name, info.result)
    {
      var mediums := WithRole(na, Medium);
      if mediums != [] && lastExecInfo.Some? {
        assert mediums[0] in na;
        Channel(mediums[0]);
      }
    }

    /**
     * The night: with no living player that is neither Werewolf nor Madman
     * the source's `random.choice` raises and the day ends without a log;
     * otherwise the victim and the guard are chosen and the sightings are
     * made.
     */
    method Night(d: Draws) returns (outcome: Outcome)
      requires Valid() && !gameOver
      requires Verdict(RolesOf(Alive(players))) == None
      modifies this`nightVictim, this`nightGuard
      modifies players`trust, players`currentTarget, players`currentGuardTarget
      modifies players`seerReports, players`mediumReports, players`white, players`black
      ensures Valid() && !gameOver
      ensures day == old(day) && logs == old(logs) && lastExecInfo == old(lastExecInfo) && dead == old(dead)
      ensures outcome == Completed ==> VictimChosen(d.victimPick) && GuardChosen()
      ensures outcome == NoAttackTarget ==>
                Prey(Alive(players)) == [] && nightVictim == old(nightVictim) && nightGuard == old(nightGuard)
    {
      var na := Alive(players);
      if Prey(na) == [] {
        return NoAttackTarget;
      }
      assert |RolesOf(na)| >= 3;
      forall i | 0 <= i < |na| ensures na[i] in players {
        assert na[i] in na;
      }
      Watch(d);
      Sight(na, d);
      Consult(na);
      return Completed;
    }

    /**
     * A win check that ends the day: on a verdict the day's log record is
     * saved with `meta`.
     */
    method Conclude(events: seq<Event>, meta: Meta) returns (won: bool, out: seq<Event>)
      requires Valid() && !gameOver && |logs| < day
      modifies this`gameOver, this`winner, this`logs
      ensures Valid() && lastExecInfo == old(lastExecInfo) && day == old(day) && dead == old(dead)
      ensures nightVictim == old(nightVictim) && nightGuard == old(nightGuard)
      ensures won <==> gameOver
      ensures won ==> winner.Some? && out == events + [Win(winner.value)] && logs == old(logs) + [LogRecord(day, out, meta)]
      ensures won ==> DayLogged(old(logs))
      ensures !won ==> out == events && logs == old(logs) && Verdict(RolesOf(Alive(players))) == None
    {
      won, out := CheckWinSimple(events);
      if won {
        logs := logs + [LogRecord(day, out, meta)];
      }
    }

    /**
     * The morning and the first win check; a verdict ends the day with a
     * log record of the night's attack and guard.
     */
    method Dawn() returns (events: seq<Event>, won: bool)
      requires Valid() && !gameOver && day >= 1 && |logs| < day
      modifies players`isAlive, players`revealedRole, this`dead, this`gameOver, this`winner, this`logs
      ensures Valid() && events != [] && day == old(day)
      ensures Killed(Attacked(day, nightVictim, nightGuard))
      ensures won <==> gameOver
      ensures won <==> Verdict(RolesOf(Survivors(old(Alive(players)), Attacked(day, nightVictim, nightGuard)))) != None
      ensures won ==> events[|events| - 1].Win? && logs == old(logs) + [LogRecord(day, events, Meta(None, nightVictim, nightGuard))]
      ensures !won ==> !events[|events| - 1].Win? && logs == old(logs) && Verdict(RolesOf(Alive(players))) == None
    {
      events := Morning();
      AliveAfter(Attacked(day, nightVictim, nightGuard));
      won, events := Conclude(events, Meta(None, nightVictim, nightGuard));
    }

    /**
     * The discussion, the vote and the execution, then the second win
     * check; a verdict ends the day with a log record naming only the
     * executed player.
     */
    method Dusk(d: Draws, events: seq<Event>) returns (out: seq<Event>, won: bool, execName: string)
      requires Valid() && !gameOver && |logs| < day
      requires Verdict(RolesOf(Alive(players))) == None
      requires DrawsFit(d, |players|)
      modifies players`strategy, players`trust, players`currentTarget, players`currentGuardTarget
      modifies players`coStatus, players`coHistory, players`voteHistory
      modifies players`isAlive, players`revealedRole, this`dead, this`lastExecInfo, this`gameOver, this`winner, this`logs
      ensures Valid() && out != [] && day == old(day) && nightVictim == old(nightVictim) && nightGuard == old(nightGuard)
      ensures Killed({execName}) && execName !in old(dead)
      ensures lastExecInfo.Some? && lastExecInfo.value.name == execName && lastExecInfo.value.day == day
      ensures won <==> gameOver
      ensures won ==> out[|out| - 1].Win? && logs == old(logs) + [LogRecord(day, out, Meta(Some(execName), None, None))]
      ensures won ==> DayLogged(old(logs))
      ensures !won ==> !out[|out| - 1].Win? && logs == old(logs) && Verdict(RolesOf(Alive(players))) == None
    {
      var alive := Alive(players);
      assert |RolesOf(alive)| >= 3;
      forall i | 0 <= i < |alive| ensures alive[i] in players {
        assert alive[i] in alive;
      }
      SeerNotSelfBlack(alive);
      var chats;
      chats, execName := Debate(alive, day, d);
      assert dead == old(dead);
      AliveKept(players);
      out, won := Judge(alive, execName, events + [DiscussionPhase(day)] + chats + [JudgementPhase]);
    }

    /**
     * The night, then the day's log record with the execution, the attack
     * and the guard; a night with nobody to attack leaves the log alone.
     */
    method Nightfall(d: Draws, events: seq<Event>, execName: string) returns (outcome: Outcome)
      requires Valid() && !gameOver && |logs| < day
      requires Verdict(RolesOf(Alive(players))) == None
      requires lastExecInfo.Some? && lastExecInfo.value.name == execName
      requires events != [] && !events[|events| - 1].Win?
      modifies this`nightVictim, this`nightGuard, this`logs
      modifies players`trust, players`currentTarget, players`currentGuardTarget
      modifies players`seerReports, players`mediumReports, players`white, players`black
      ensures Valid() && lastExecInfo == old(lastExecInfo) && !gameOver && day == old(day) && dead == old(dead)
      ensures Verdict(RolesOf(Alive(players))) == None
      ensures outcome == Completed ==> logs == old(logs) + [LogRecord(day, events, Meta(Some(execName), nightVictim, nightGuard))]
      ensures outcome == Completed ==> DayLogged(old(logs)) && VictimChosen(d.victimPick) && GuardChosen()
      ensures outcome == NoAttackTarget ==>
                logs == old(logs) && Prey(Alive(players)) == [] && nightVictim == old(nightVictim) && nightGuard == old(nightGuard)
    {
      outcome := Night(d);
      AliveKept(players);
      if outcome == Completed {
        Record(events, execName);
      }
    }

    /** Saves the log record of a day that ran to the end of the night. */
    method Record(events: seq<Event>, execName: string)
      requires Valid() && !gameOver && |logs| < day
      requires lastExecInfo.Some? && lastExecInfo.value.name == execName
      requires events != [] && !events[|events| - 1].Win?
      modifies this`logs
      ensures Valid() && !gameOver && unchanged(players)
      ensures Alive(players) == old(Alive(players)) && LivingGuard(players) == old(LivingGuard(players))
      ensures day == old(day) && lastExecInfo == old(lastExecInfo) && nightVictim == old(nightVictim) && nightGuard == old(nightGuard) && dead == old(dead)
      ensures logs == old(logs) + [LogRecord(day, events, Meta(Some(execName), nightVictim, nightGuard))]
      ensures DayLogged(old(logs))
    {
      ghost var guard := LivingGuard(players);
      logs := logs + [LogRecord(day, events, Meta(Some(execName), nightVictim, nightGuard))];
      assert LivingGuard(players) == guard;
    }

    /**
     * The day just played added one log record: it carries the day's
     * number and its events, the last of which is the verdict exactly when
     * the game is now over; a day that ran to the end of the night records
     * the execution, the attack and the guard.
     */
    ghost predicate DayLogged(before: seq<LogRecord>)
      reads this
    {
      && logs != [] && logs == before + [logs[|logs| - 1]]
      && var r := logs[|logs| - 1];
      && r.day == day && r.events != []
      && (gameOver <==> r.events[|r.events| - 1].Win?)
      && (!gameOver ==> lastExecInfo.Some? && r.meta == Meta(Some(lastExecInfo.value.name), nightVictim, nightGuard))
    }

    /**
     * `run_next_day`: nothing once the game is over; otherwise the day
     * counter advances, and the morning, the discussion and vote, and the
     * night run in turn, stopping with a log record as soon as a verdict
     * is reached. A night with nobody to attack ends the day without one.
     * `morningWon` tells whether the morning's win check ended the day.
     */
    method RunNextDay(d: Draws) returns (outcome: Outcome, ghost morningWon: bool)
      requires Valid()
      requires DrawsFit(d, |players|)
      modifies this`day, this`logs, this`gameOver, this`winner
      modifies this`nightVictim, this`nightGuard, this`lastExecInfo
      modifies players, this`dead
      ensures Valid()
      ensures old(gameOver) ==> outcome == Completed && unchanged(this) && unchanged(players)
      ensures !old(gameOver) ==> day == old(day) + 1
      ensures !old(gameOver) ==> Killed(Attacked(day, old(nightVictim), old(nightGuard)) + Executed())
      ensures !old(gameOver) && !gameOver ==> Executed() != {}
      ensures !old(gameOver) ==>
                (morningWon <==> Verdict(RolesOf(Survivors(old(Alive(players)), Attacked(day, old(nightVictim), old(nightGuard))))) != None)
      ensures !old(gameOver) && old(day) == 0 ==> (morningWon <==> old(Verdict(RolesOf(Alive(players)))) != None)
      ensures old(gameOver) ==> !morningWon
      ensures morningWon ==> gameOver && Executed() == {} && outcome == Completed
      ensures !old(gameOver) && !morningWon ==> Executed() != {}
      ensures !old(gameOver) ==> Executed() !! old(dead) && Executed() !! Attacked(day, old(nightVictim), old(nightGuard))
      ensures !gameOver ==> Verdict(RolesOf(Alive(players))) == None
      ensures !old(gameOver) && outcome == Completed ==> DayLogged(old(logs))
      ensures outcome == NoAttackTarget ==> logs == old(logs) && !gameOver && Prey(Alive(players)) == []
      ensures gameOver || outcome == NoAttackTarget ==> nightVictim == old(nightVictim) && nightGuard == old(nightGuard)
      ensures !gameOver && outcome == Completed ==> VictimChosen(d.victimPick) && GuardChosen()
    {
      if gameOver {
        return Completed, false;
      }
      if day == 0 {
        SurvivorsOfNobody(Alive(players));
      }
      day := day + 1;
      outcome, morningWon := PlayDay(d);
    }

    /** The day's three phases, stopping at the first verdict; `morningWon` tells whether that came in the morning. */
    method PlayDay(d: Draws) returns (outcome: Outcome, ghost morningWon: bool)
      requires Valid() && !gameOver && day >= 1 && |logs| < day
      requires lastExecInfo.Some? ==> lastExecInfo.value.day < day
      requires DrawsFit(d, |players|)
      modifies this`logs, this`gameOver, this`winner
      modifies this`nightVictim, this`nightGuard, this`lastExecInfo
      modifies players, this`dead
      ensures Valid() && day == old(day)
      ensures Killed(Attacked(day, old(nightVictim), old(nightGuard)) + Executed())
      ensures !gameOver ==> Executed() != {}
      ensures morningWon <==> Verdict(RolesOf(Survivors(old(Alive(players)), Attacked(day, old(nightVictim), old(nightGuard))))) != None
      ensures morningWon ==> gameOver && Executed() == {} && outcome == Completed
      ensures !morningWon ==> Executed() != {}
      ensures Executed() !! old(dead) && Executed() !! Attacked(day, old(nightVictim), old(nightGuard))
      ensures !gameOver ==> Verdict(RolesOf(Alive(players))) == None
      ensures outcome == Completed ==> DayLogged(old(logs))
      ensures outcome == NoAttackTarget ==> logs == old(logs) && !gameOver && Prey(Alive(players)) == []
      ensures gameOver || outcome == NoAttackTarget ==> nightVictim == old(nightVictim) && nightGuard == old(nightGuard)
      ensures !gameOver && outcome == Completed ==> VictimChosen(d.victimPick) && GuardChosen()
    {
      var events, won := Dawn();
      morningWon := won;
      if won {
        return Completed, morningWon;
      }
      outcome := Evening(d, events);
    }

    /** The afternoon and the night of a day on which the morning reached no verdict. */
    method Evening(d: Draws, events: seq<Event>) returns (outcome: Outcome)
      requires Valid() && !gameOver && |logs| < day
      requires Verdict(RolesOf(Alive(players))) == None
      requires DrawsFit(d, |players|)
      modifies this`logs, this`gameOver, this`winner
      modifies this`nightVictim, this`nightGuard, this`lastExecInfo
      modifies players, this`dead
      ensures Valid() && day == old(day)
      ensures Killed(Executed()) && Executed() != {} && Executed() !! old(dead)
      ensures !gameOver ==> Verdict(RolesOf(Alive(players))) == None
      ensures outcome == Completed ==> DayLogged(old(logs))
      ensures outcome == NoAttackTarget ==> logs == old(logs) && !gameOver && Prey(Alive(players)) == []
      ensures gameOver || outcome == NoAttackTarget ==> nightVictim == old(nightVictim) && nightGuard == old(nightGuard)
      ensures !gameOver && outcome == Completed ==> VictimChosen(d.victimPick) && GuardChosen()
    {
      var out, won, execName := Dusk(d, events);
      assert Executed() == {execName};
      if won {
        return Completed;
      }
      outcome := Nightfall(d, out, execName);
      assert Executed() == {execName};
    }
  }
}
