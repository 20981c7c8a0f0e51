# Werewolf simulator engine in Dafny

This project models the engine of a werewolf (mafia) game simulator. The
original is a single Python file, `app.py`. The model covers three parts:

- **The roles.** The `ROLES` table, with its six roles and two teams.
- **The player.** The `Player` class: its memory, its known-human and
  known-wolf sets, its trust scores, its strategy and its target selection.
- **The world.** The `WerewolfWorld` class: the seating, the list of living
  players, the win check, and one call of `run_next_day`. That call runs:
  1. the morning;
  2. a win check;
  3. the discussion;
  4. the vote and execution;
  5. a second win check;
  6. the night;
  7. the day's log record.

Five modules, one file each:

- `rules.dfy` (module `Rules`) holds the roles, the teams, the strategy tags,
  the sighting result and the win verdict.
- `lists.dfy` (module `Lists`) holds list comprehensions with a filter, and
  facts about lists of distinct elements.
- `odict.dfy` (module `OrderedDict`) models Python's insertion-ordered `dict`.
  The vote tally depends on that order: the most-voted candidates are listed
  in order of first vote.
- `agent.dfy` (module `Agent`) holds the `Player` class and the pure rules
  its methods follow. Those rules are the guard choice, the vote choice, the
  knowledge pinning, the strategy and the starting trust.
- `engine.dfy` (module `Engine`) holds the `WerewolfWorld` class, the loops
  of a day as methods over the living players, and the vote tally.

Where the source changes state in place, the model does too.

- Players and the world are classes. Their methods carry `modifies` clauses
  and state the new value of what they change. The methods of a whole day
  state who died, the log record, the night's victim and guard, and that a
  finished game is left alone. The last section below names what they do
  not carry up from the steps they call.
- The loops of the source are `for`/`while` loops with invariants. These
  cover trust initialisation, knowledge pinning, the planning loop, the
  speaking loop, claim broadcast, vote counting and vote recording.
- Each loop is proved against a pure function or predicate: `Jittered`,
  `Overwritten`, `Targeted` with `StrategyFor`, `Spoke` with `Claims`, or
  `Tally`.
- The properties the game relies on are proved about those functions as
  lemmas.

The world keeps an invariant, `WerewolfWorld.Valid`, that every method
preserves. It says:

- player names are distinct;
- every name a player has filed as a wolf belongs to a Werewolf, and every
  name filed as human belongs to a non-Werewolf;
- a Bodyguard, which makes no sightings, has filed nothing;
- a player is dead, and its role revealed, exactly when its name is in the
  ghost set of the dead;
- the game is over exactly when a winner is recorded, and that winner is the
  verdict on the living players;
- there are no more log records than days;
- the pending victim names a real player, and the last execution happened
  no later than today and carries the sighting result of the player it names.

Randomness becomes parameters:

- a coin (`random.random()`) is a real in [0, 1);
- a jitter draw (`random.uniform(-0.1, 0.1)`) is a real in [-0.1, 0.1];
- `random.choice(xs)` is `xs[k % |xs|]` for a caller-supplied `k`;
- one day's draws are bundled in `Engine.Draws`.

The Streamlit session entries become world fields: `night_victim`,
`night_guard` and `last_exec_info` are `nightVictim`, `nightGuard` and
`lastExecInfo`.

Where the code and its design description disagree, the model follows the
code:

- **Win check.** It counts only the Werewolf role, not the whole Wolf team
  (app.py:307-308). A living Madman counts with the village.
  `Rules.MadmanDoesNotCountForWolves` shows the difference.
- **When knowledge pins trust.** Known wolves get trust 0.0 and known humans
  1.0 only when `select_action_targets` runs (app.py:110-111), not when the
  observation is learnt. Between the two, trust is not pinned.
- **What a sighting reports.** A Seer's sighting and a Medium's report give
  "人狼" only for the Werewolf role (app.py:275, app.py:295). They do not go
  by team, so a Madman reads as human.

## Model

| member | source | states |
|---|---|---|
| Rules.SightingResult | app.py:295 | A sighting reports "人狼" exactly for a Werewolf and "人間" for every other role |
| Rules.CountWolves | app.py:307 | The count of living Werewolves is at most the number of living players, and zero exactly when no Werewolf lives |
| Rules.Verdict | app.py:305-317 | Village wins exactly when no Werewolf lives. Wolves win exactly when Werewolves are at least as many as everyone else. Otherwise there is no verdict, and then at least three players live |
| Rules.CountWolvesIsMultiplicity | app.py:307 | The Werewolf count is the multiplicity of the Werewolf role among the living |
| Rules.VerdictIgnoresOrder | app.py:305-317 | Two lists with the same roles, in any order, get the same verdict, so the win check is idempotent on a snapshot |
| Rules.WolvesWithinWolfTeam | app.py:21-28 | Werewolves are part of the Wolf team of the ROLES table, and a strict part when a Madman lives |
| Rules.MadmanDoesNotCountForWolves | app.py:305-317 | One Werewolf, one Madman and one Villager give no verdict, although the Wolf team holds two of three |
| Lists.Filter | app.py:186 | A comprehension keeps exactly the elements that pass the test and is never longer than its input |
| Lists.FilterAppend | app.py:186 | Filtering a join gives the filtered parts joined: a comprehension keeps the order of its input |
| Lists.FilterFirst | app.py:288 | The head of a non-empty filtered list is the first element of the input that passes the test |
| Lists.FilterDropsOne | app.py:90 | Filtering distinct elements with a test that rejects only one present element drops exactly one |
| OrderedDict.Dict.Put | app.py:265 | Assigning a key stores its value. A new key goes to the end of the key order, an existing key keeps its place, and keys stay distinct |
| OrderedDict.Empty | app.py:264 | The empty dict has no keys |
| Agent.NamedIsNameSet | app.py:271 | Having a player named `n` in the list is membership of `n` among the list's names |
| Agent.Others | app.py:90 | The other living players are exactly those of the list not named like the player |
| Agent.OthersAppend | app.py:90 | The other players keep the seating order: the others of a join are the others of each part, joined |
| Agent.OthersCount | app.py:90 | Among distinctly named living players, a player's others are everyone but that player, one fewer than all |
| Agent.OthersNonEmpty | app.py:90-91 | With two or more distinctly named living players, everyone has someone else, so the early return never fires in a discussion |
| Agent.Candidates | app.py:113 | The candidates are exactly the other players whose names are not excluded |
| Agent.CandidatesAppend | app.py:113 | The candidates keep the order of the other players |
| Agent.Excluded | app.py:104-108 | A non-bus-throwing Werewolf excludes exactly the names of the living Werewolves, a Seer exactly its known humans, and every other player nobody |
| Agent.ArgMinTrust | app.py:114 | `min` with a key picks the first player of least trust: nobody has less, nobody before it has as little |
| Agent.ArgMaxTrust | app.py:94-95 | The head of the stable descending sort is the first player of greatest trust |
| Agent.GuardChoice | app.py:93-95 | The guard target is another living player, and nobody has more trust |
| Agent.GuardChoiceFirst | app.py:94-95 | Ties go to the earliest: every player before the guard target in the list is trusted strictly less, as the head of a stable descending sort |
| Agent.Pinned | app.py:110-111 | After pinning, every known human has 1.0, every known wolf not also known human has 0.0, other names keep their trust, and no other name gains an entry |
| Agent.PinnedTwice | app.py:110-111 | Pinning what a player knows a second time changes nothing |
| Agent.VoteChoice | app.py:113-115 | A truthy override wins. Otherwise the target is another living player: the least-trusted non-excluded candidate, or the drawn other player when no candidate remains |
| Agent.VoteChoiceIsOther | app.py:97-115 | The vote target is always another living player, provided a Seer does not hold its own name as a wolf |
| Agent.StrategyFor | app.py:78-87 | The strategy of each role by day and draw: BUS_THROW for a Werewolf from day 2 on a draw below 0.2, FAKE_CO for a Madman from day 2 below 0.7, REVEAL_TRUTH for a Seer that knows a wolf, VILLAGE_THOUGHT otherwise |
| Agent.Jittered | app.py:60-62 | Starting trust has an entry exactly for the old entries and the listed names |
| Agent.JitteredBounds | app.py:62 | Every listed name starts with trust between 0.4 and 0.6 |
| Agent.JitteredKeeps | app.py:60-62 | Names not listed keep the trust they had |
| Agent.JitteredExact | app.py:60-62 | With distinct names, each listed name gets exactly 0.5 plus its own jitter draw |
| Agent.IsRoleClaim | app.py:258 | The intended claim test fires exactly on the Seer's report, and never where the source's test does not |
| Agent.SpuriousClaim | app.py:258 | A stock line about a player named "NICO" passes the source's "CO" test without being a role claim |
| Agent.Player.constructor | app.py:34-58 | A new player is alive, unrevealed and has not come out; its known sets, memories and trust are empty, its strategy is NORMAL and it has no targets |
| Agent.Player.InitTrust | app.py:60-62 | The loop leaves the trust that `Jittered` specifies |
| Agent.Player.Learn | app.py:64-76 | Each observation kind updates exactly its memory entry. A sighting files its target as a known wolf when the result is "人狼" and as a known human otherwise. The known sets only grow |
| Agent.Player.NoteVotes | app.py:65 | The day's tally is stored under the day |
| Agent.Player.NoteClaim | app.py:66 | The claimed role is stored under the claimant |
| Agent.Player.File | app.py:70-71 | A "人狼" result adds the target to the known wolves, any other result adds it to the known humans |
| Agent.Player.NoteSeerReport | app.py:67-71 | The report is put into the ordered report dict and the target is filed |
| Agent.Player.NoteMediumReport | app.py:72-76 | The report is stored under its day and the target is filed |
| Agent.Player.DecideStrategy | app.py:78-87 | The new strategy is `StrategyFor` of the role, day, draw and known wolves |
| Agent.Player.PinTrust | app.py:110-111 | The loop over a set of names sets each of them to the value and leaves the rest |
| Agent.Player.SelectActionTargets | app.py:89-115 | With nobody else alive nothing changes. Otherwise a Bodyguard guards `GuardChoice` on its entry trust, trust becomes `Pinned`, and the vote target is `VoteChoice` under a possible override. That target is another living player when a Seer holds no claim against itself |
| Agent.Player.Commit | app.py:93-115 | The writes of target selection in order: the guard target if any, the pinned trust, the vote target |
| Agent.Player.SeerOverride | app.py:97-102 | A Seer that knows a living wolf names one of them, and nobody else has an override |
| Agent.Player.Plan | app.py:251-253 | The strategy becomes `StrategyFor` of the role, day, draw and known wolves. Then trust is `Pinned`, a Bodyguard's guard target is `GuardChoice` on its entry trust, and the vote target is `VoteChoice` under a possible override and is another living player |
| Agent.Player.NightWatch | app.py:286-289 | With someone else alive, the Bodyguard's trust is `Pinned`, its guard target is `GuardChoice` on its entry trust and its vote target is chosen again by `VoteChoice`. With nobody else alive nothing changes |
| Agent.Player.Speak | app.py:146-170 | The Seer's report is said exactly on day 2 when there is a report: it gives the first report and marks the Seer as having come out. The Bodyguard pledges on its draw below 0.3 after day 1. The Medium reports the previous day's result when it has one. Everyone else uses a stock line about the vote target |
| Agent.Player.Die | app.py:241 | The player is dead and revealed |
| Engine.CastNames | app.py:178-179 | The cast's names in seating order |
| Engine.OtherNames | app.py:180 | The other names are exactly the names that differ from the player's, distinct when the names are, and one fewer than all when the player is listed |
| Engine.Alive | app.py:186 | The living players are exactly those of the roster with the alive flag set, and their names stay distinct |
| Engine.AliveAppend | app.py:186 | `get_alive` keeps seating order: the living of a join are the living of each part, joined |
| Engine.AliveKept | app.py:186 | Who is alive depends only on the players' alive flags |
| Engine.Survivors | app.py:186 | The survivors of a killing are exactly the given players not named among the killed, in seating order |
| Engine.SurvivorsOfNobody | app.py:186 | With nobody killed, everybody survives |
| Engine.SurvivorsAppend | app.py:186 | The survivors keep seating order: the survivors of a join are the survivors of each part, joined |
| Engine.RolesOf | app.py:307-308 | The roles of the players, seat by seat |
| Engine.WithRole | app.py:282 | The players of a role are exactly those of the list with that role |
| Engine.WithRoleFirst | app.py:288 | The first player `WithRole` keeps is the first player of the list with the role, so `knight[0]`, `seer[0]` and `medium[0]` are the first living holders |
| Engine.Prey | app.py:283 | The possible attack targets are exactly the players who are neither Werewolf nor Madman |
| Engine.Attacked | app.py:238-241 | The morning kills the night's victim exactly when it is not day 1, the victim is truthy and it was not guarded; otherwise nobody |
| Engine.WolfAndHumanNamesDisjoint | app.py:70-71 | With distinct names, no name is both a Werewolf's and a non-Werewolf's |
| Engine.IndexOfName | app.py:271 | `next(...)` finds the first player with the name |
| Engine.Ballots | app.py:265 | The ballots are the vote targets in seating order |
| Engine.Tally | app.py:264-265 | The tally is a well-formed ordered dict |
| Engine.TallyKeys | app.py:264-265 | The tally has one key per name voted for, in order of first vote |
| Engine.TallyOccurrences | app.py:264-265 | Each count is the number of ballots naming the key |
| Engine.TotalAfterBallot | app.py:265 | One more ballot adds one to the total |
| Engine.TallyTotal | app.py:264-265 | The counts add up to the number of ballots |
| Engine.TallyVotes | app.py:264-265 | The counting loop computes `Tally` |
| Engine.BallotsNamed | app.py:265 | Every name in the tally is a living player's when every vote target is |
| Engine.MaxCount | app.py:268 | `max(votes.values())` bounds every count and is reached by some key |
| Engine.Leaders | app.py:269 | The most-voted list holds exactly the keys with the maximum count, and is non-empty when anyone voted |
| Engine.Elected | app.py:268-270 | The chosen name is in the tally and nobody has more votes |
| Engine.MostVoted | app.py:264-270 | A name that tops the tally has at least as many ballots as any name |
| Engine.ClaimsSnoc | app.py:258-259 | One more chat adds its speaker's claim, if it is one |
| Engine.Names | app.py:180 | The names of the players, seat by seat, distinct when the players' are |
| Engine.Seat | app.py:177-179 | One new, untouched player per cast row, in order, with the row's name, role and personality |
| Engine.DealTrust | app.py:180 | Each player's trust becomes `Jittered` over the names of all the others |
| Engine.Seed | app.py:177-180 | The roster matches the cast, and every player's starting trust covers exactly the others |
| Engine.PlanDay | app.py:250-253 | Every living player plans with its own draws: its strategy is `StrategyFor`, its trust is `Pinned`, a Bodyguard's guard target is `GuardChoice` on its entry trust, and its vote target is `VoteChoice` and another living player |
| Engine.Discuss | app.py:250-260 | Every living player plans as `PlanDay` states and then speaks in seating order, and every vote target names another living player |
| Engine.AnnounceClaim | app.py:259 | Every living player records the claim |
| Engine.Converse | app.py:256-260 | One chat per living player in seating order. A chat is a role claim exactly for the Seer with a report on day 2, and a speaker has come out exactly when it had before or its line is a claim. Every living player's claim memory gains exactly the claims of the discussion |
| Engine.SpeakInTurn | app.py:257-260 | One player speaks and has come out exactly when it had before or its line is a claim. Nobody else's come-out flag changes, and a claim reaches every living player's claim memory |
| Engine.RecordVotes | app.py:266 | Every living player records the tally under the day |
| Engine.CountVotes | app.py:264-266 | The tally is `Tally` of the ballots, every living player records it, and it names only living players |
| Engine.Vote | app.py:264-270 | The executed name is a living player's, and no name got more ballots |
| Engine.Deliberate | app.py:250-270 | The discussion as `Discuss` states it, then every living player records the tally, and the executed name is a living player's with no name getting more ballots |
| Engine.Debate | app.py:250-270 | One chat per living player, and the executed name is a living player's |
| Engine.SeerAt | app.py:291-293 | At most one player makes the night's sighting, and it is a living Seer |
| Engine.MediumAt | app.py:298-300 | At most one player files the last execution, and it is a living Medium |
| Engine.Guard | app.py:285-289 | With no living Bodyguard nobody is guarded and no targets change. Otherwise only the first living Bodyguard selects again, and the guard is `GuardChoice` among the others on its entry trust |
| Engine.Protect | app.py:285-289 | When the first Bodyguard's trust already agrees with what it knows, the guard is the one `GuardOf` reads off the living players |
| Engine.WerewolfWorld.constructor | app.py:176-184 | The roster follows the cast, with jittered trust towards every other name. Day is 0, the log is empty, and there is no winner, victim, guard or last execution |
| Engine.WerewolfWorld.AliveAfter | app.py:239-241 | When exactly the named players die, the living are the `Survivors` of those living before, in seating order |
| Engine.WerewolfWorld.Deaths | app.py:241 | Under the invariant before and after, the players named die and are revealed, and every other player's alive and revealed flags stay as they were |
| Engine.WerewolfWorld.KnightsSettled | app.py:110-111 | A living Bodyguard has filed nothing, so its trust already agrees with what it knows |
| Engine.WerewolfWorld.CheckWinSimple | app.py:305-317 | Reports a win exactly when the living have a verdict, and then records it as the winner and appends a win event. Otherwise nothing changes |
| Engine.WerewolfWorld.SeerNotSelfBlack | app.py:291-296 | No Seer ever holds its own name as a wolf |
| Engine.WerewolfWorld.Morning | app.py:235-244 | Day 1 gives the banner. On later days exactly the `Attacked` victim dies: a truthy unguarded victim dies and is revealed, with a death event; otherwise the morning is peaceful and nobody dies |
| Engine.WerewolfWorld.Execute | app.py:271-275 | Exactly the executed player dies: the first player with the chosen name, alive before and so not among the dead. The last execution records the day, the name and its sighting result |
| Engine.WerewolfWorld.Judge | app.py:271-278 | Exactly the executed player dies, and was not among the dead before, and the execution event and the last execution carry its role. A verdict then ends the game and saves a record naming only the executed player; otherwise the log is unchanged and there is no verdict |
| Engine.WerewolfWorld.Divine | app.py:292-296 | The Seer puts the true result of its sighting into its report dict and files the target as a wolf or a human accordingly; the world, the living and the guard stay |
| Engine.WerewolfWorld.SightingsSound | app.py:67-76 | Filing a true result keeps every known wolf a Werewolf and every known human a non-Werewolf |
| Engine.WerewolfWorld.Channel | app.py:298-300 | The Medium stores the last execution's result under its day and files it as a wolf or a human; the world, the living and the guard stay |
| Engine.WerewolfWorld.Watch | app.py:281-289 | The victim is the drawn living player that is neither Werewolf nor Madman, and the guard is the first living Bodyguard's most trusted other living player, or nobody |
| Engine.WerewolfWorld.ChooseVictim | app.py:283 | The session's victim is the drawn living player that is neither Werewolf nor Madman |
| Engine.WerewolfWorld.ChooseGuard | app.py:285-289 | The session's guard is the first living Bodyguard's most trusted other living player, or nobody |
| Engine.WerewolfWorld.Guarding | app.py:286-289 | The first living Bodyguard's night turn yields as guard its most trusted other living player, or nobody, and leaves the world's own fields alone |
| Engine.WerewolfWorld.Sight | app.py:291-296 | Only on day 1 does anyone's report dict change: the first living Seer, if any, files the true result for the drawn other living player. Nobody else's reports or known sets change |
| Engine.WerewolfWorld.Consult | app.py:298-300 | Once someone has been executed, the first living Medium, if any, stores and files the last execution. Nobody else's reports or known sets change |
| Engine.WerewolfWorld.Night | app.py:280-300 | The night reports no attack target exactly when every living player is a Werewolf or a Madman, and then leaves victim and guard alone. Otherwise the victim and the guard are chosen as `Watch` states. The day, the log, the dead and the last execution stay |
| Engine.WerewolfWorld.Conclude | app.py:246-247 | On a verdict the game ends, a win event is appended and the day's record is saved. Otherwise nothing changes and there is no verdict |
| Engine.WerewolfWorld.Dawn | app.py:234-247 | Exactly the morning's `Attacked` victim dies. The game ends exactly when the `Survivors` of the attack have a verdict; a verdict then saves a record with the pending attack and guard; otherwise the log is unchanged and there is no verdict |
| Engine.WerewolfWorld.Dusk | app.py:249-278 | Exactly the executed player dies, one who was not dead before, and the last execution names it. A verdict saves a record naming only that player; otherwise there is no verdict. The pending attack and guard stay |
| Engine.WerewolfWorld.Nightfall | app.py:280-303 | Nobody dies, so the living still have no verdict. A completed night chooses the victim and the guard and saves the record with the execution, attack and guard. A night without a target saves nothing and leaves victim and guard alone |
| Engine.WerewolfWorld.Record | app.py:303 | The day's last record, with the execution, attack and guard, is appended and nothing else changes |
| Engine.WerewolfWorld.RunNextDay | app.py:224-303 | A finished game is left alone, players included. Otherwise the day advances, and exactly the morning's `Attacked` victim and the day's executed player die. The morning win check decides before any discussion: the game ends in the morning, with nobody executed, exactly when the `Survivors` of the attack have a verdict (on day 1, the starting living players). Otherwise exactly one player is executed, one who was neither dead before nor the morning's victim. A game that goes on has no verdict on its living players. A completed day appends one record for this day, ending in a win event exactly when the game is over and otherwise naming the execution, attack and guard. A game that goes on has executed someone today, and when its day completes it has chosen the night's victim and guard. A night without a target appends nothing |
| Engine.WerewolfWorld.PlayDay | app.py:227-303 | The three phases of a day, stopping at the first verdict: exactly the `Attacked` victim and the executed player die. The day stops in the morning, with nobody executed, exactly when the `Survivors` of the attack have a verdict; otherwise one player is executed, neither dead before nor the morning's victim. A game that goes on has no verdict on its living players, and a day that completes without a verdict has chosen the victim and guard |
| Engine.WerewolfWorld.Evening | app.py:249-303 | The afternoon and the night of a day whose morning reached no verdict: exactly the executed player dies, one who was not dead before. A game that goes on has no verdict on its living players, and a day that completes without a verdict has chosen the victim and guard |

## Left out

- The Streamlit user interface (app.py:319 on), `generate_graph` (app.py:188-222) and the graph stored in each log record: these are presentation, not game rules.
- The pandas table of names and personalities: the cast is a sequence of `CastMember` rows.
- The wording of dialogue, banners and events: `Speak` yields the kind of line and its data; events keep their data without their text.
- The `emoji`, `style`, `name` and `icon` columns of the constant tables: they only feed display.
- Floating point: trust scores are reals and the jitter and coins are exact reals within their ranges.
- The random generator: every draw is a parameter, a choice among `xs` is `xs[k % |xs|]`, and the order in which the Seer's known-wolf set is walked is left open, so any living known wolf may be the override.
- How many draws each step consumes: `Draws` supplies one of each per living player, whether or not the source would draw it.
- A Streamlit session that outlives one world: the session's `night_victim`, `night_guard` and `last_exec_info` start as `None` with each world.
- The `deaths` memory entry: the source never writes it, so it stays empty.
- The unused `alive_players` parameters of `decide_strategy` and `generate_dialogue`.
- `learn` called with an action type other than the four it knows: the source never does so, and `Observation` has only those four kinds.
- The `else None` arm of the night attack (app.py:283): the win check that just ran guarantees a living Werewolf, so the model takes that verdict as a precondition of the night.
- The exception raised by `random.choice` on an empty list at app.py:283: the day ends with `NoAttackTarget`, with what had already changed kept and no log record, and the model does not say how the program goes on after it.
- Engine.Debate: states one chat per living player and a living executed player; the plans, the speeches, the vote records and the most-voted property that `Engine.Deliberate` states are not carried up into the world's day, to keep the world's proofs small.
- Engine.WerewolfWorld.Watch: states the session's victim and guard; the first Bodyguard's re-pinned trust and re-chosen vote target, which `Engine.Guard` states, are not carried up.
- Engine.WerewolfWorld.Night: states the victim, the guard and when there is no target; the sightings are stated by `Engine.WerewolfWorld.Sight` and `Engine.WerewolfWorld.Consult`, which it calls, and are not carried up.
- Engine.WerewolfWorld.Dawn, Engine.WerewolfWorld.Dusk, Engine.WerewolfWorld.Evening, Engine.WerewolfWorld.PlayDay and Engine.WerewolfWorld.RunNextDay: the deaths are stated as `Killed`, over the ghost set of the dead's names; `Engine.WerewolfWorld.Deaths` turns that into each player's alive and revealed flags, and `Engine.WerewolfWorld.AliveAfter` into the list of the living. The morning's outcome is returned as a ghost flag by PlayDay and RunNextDay, since the source's early return leaves no trace in the world's state.
- Lists.Filter: its contract states membership and length; the order a comprehension keeps is stated by `Lists.FilterAppend` and `Lists.FilterFirst`, and for the living, the others, the candidates and the holders of a role by `Engine.AliveAppend`, `Agent.OthersAppend`, `Agent.CandidatesAppend` and `Engine.WithRoleFirst`.
- Agent.GuardChoice: its contract states the guard's trust; the tie-break towards the earliest player is `Agent.GuardChoiceFirst`.
- The night guard when the first living Bodyguard has nobody else alive: the source keeps that Bodyguard's previous guard target, while `Engine.GuardOf` gives nobody. The world only asks with no verdict, so three or more players live and the case cannot arise.

## Findings

| source | as written | input that shows it | evidently intended | confidence | as-written member | corrected member |
|---|---|---|---|---|---|---|
| app.py:258 | Any line whose text contains "CO" counts as a role claim and is broadcast to every living player | A player named "NICO" who is someone's vote target: that player's stock line quotes the name, so the text contains "CO" | Only the Seer's report, which carries the 【占い師CO】 marker, is a role claim | not executed; the built-in hiragana names cannot trigger it, while names typed into the cast table can | Agent.SpuriousClaim | Agent.IsRoleClaim |
