# mini-games in Dafny

A verified model of the game logic of the mini-games repository: the Kuhn Poker game tree
and the counterfactual-regret (CFR) solvers that train on it, the helpers that play and
evaluate those solvers, Chomp with its memoised negamax, Connect 4 both as a numpy value
state and as the 64-bit bitboard engine with alpha-beta search, and numerical tic-tac-toe.

| file | module | models |
|---|---|---|
| common.dfy | Common | `Option` (Python's `None`), `str()` of integers, lists without repeats |
| kuhn_game.dfy | KuhnGame | `kuhn_game.py`: cards, dealings, actions, `MAP_REWARDS`, the node datatype built by `RootNode`/`GameNode`, `play`, `is_root`, `is_terminal`, `info_set`, `eval` |
| kuhn_tree.dfy | KuhnTree | the materialised tree `RootNode(DEALINGS)`, its pre-order, and the recursive walk shared by the solvers and helpers |
| cfr_store.dfy | CfrStore | strategy rows and tables (`sigma`, `sigma_cum`, `r_cum`), regret matching with the uniform fallback, normalisation |
| cfr_spec.dfy | CfrSpec | `init_map`, the `update_sigma` pass and `compute_ne` as pure walks, with what they leave in the tables |
| cfr_pass.dfy | CfrPass | `compute_u` of CFR+ and of chance sampling (and their bot twins) as pure walks |
| cfr_solver.dfy | CfrSolver | the solver class: its three tables as fields, the passes as recursive methods proved against the pure walks, `train`, and the bot's `sample_action`, `traverse_tree` and `play` |
| sample.dfy | KuhnSample | inverse-CDF `sample_action` with the uniform draw as a parameter |
| play.dfy | KuhnPlay | playing one hand by sampling until a terminal pays |
| kuhn_fun.dfy | KuhnFun | `evaluate`, `get_all_info_sets`, `train_bot`, `simulate` and its `bot_ne` filter, in `kuhn_fun.py` and its copy `src/kuhn/kuhn_utils.py` |
| chomp.dfy | Chomp | `ChompState` and `negamax` with its memo |
| connect4_game.dfy | Connect4 | `Connect4State` of `src/c4/c4_game.py` and of the older `connect_4_minimax.py` |
| connect4_bitboard.dfy | Bitboard | the board of `connect4_minimax.c`: masks, `init_board`, `make_move`, `check_win`, `is_valid_move`, `is_full` |
| connect4_search.dfy | Connect4Search | `is_winning_move`, `evaluate_position`, `static_ordering`, `negamax`, `find_best_move` |
| tictactoe.dfy | TicTacToe | `TicTacToe`: `add_symbol`, the allowed moves, `check_alignments`, `score_fun`, `is_root`, `is_terminal` |

Randomness is passed in: the dealing `deal_cards` draws, the uniform number each
`sample_action` draws and the dealing chance-sampling training draws are parameters of the
operations that use them. The floats of the CFR arithmetic (probabilities, utilities,
regrets) are Dafny `real`s; the tic-tac-toe grids are integer grids (see "## Left out"). Objects whose fields the source
updates in place (the CFR solvers and bots, the C `Board` struct) are classes with
`modifies` clauses; the game states that the source copies before every change (Chomp,
Connect 4 value states, tic-tac-toe) and the Kuhn tree are datatypes.

Three facts about the code that shape the model:

- Chomp's `negamax` means to break ties between equally good bites by the skipped cells,
  the maximiser preferring more and the minimiser fewer (chomp_minimax.py:108-110), but
  `n_skipped` is never updated after its infinite start value (chomp_minimax.py:111, read at
  line 127), so every equally good bite replaces the previous pick and the last one wins
  (`Chomp.Beats`, `Chomp.BestIsLastMax`).
- The C Connect 4 search keeps no memo (connect4_minimax.c:163-226), and
  `evaluate_position` is constantly 0 (connect4_minimax.c:146-148); a position with an
  immediately winning column is worth 43 − `n_moves` (connect4_minimax.c:170-174).
- The base class `CFR` has no regret-matching `compute_u` of its own (it returns an
  exception object instead of a utility, cfr_algos.py:61-63); the solvers that train are CFR+ and chance
  sampling, and their bot twins.

## Model

| member | source | states |
|---|---|---|
| Common.NatToString | chomp_minimax.py:30-31 | `str(n)` of a non-negative number is a non-empty run of decimal digits, a single digit below 10 and at least two from 10 on |
| Common.IntToString | kuhn_game.py:103-105 | `str(i)` is non-empty and starts with a minus sign exactly for negative numbers |
| Common.NatToStringInjective | chomp_minimax.py:30-31 | two different numbers never have the same decimal text |
| KuhnGame.DealKeys | kuhn_game.py:50-62 | the root's child keys are the dealings, one key per dealing, in the order given |
| KuhnGame.ActKeys | kuhn_game.py:83-91 | a betting node's child keys are its actions, one per action, in order |
| KuhnGame.MakeGame | kuhn_game.py:76-105 | `GameNode.__init__` keeps cards, history and actions, builds one child per action, and marks a childless node with player −1 |
| KuhnGame.BuildRoot | kuhn_game.py:50-65 | `RootNode.__init__` builds one player-1 child per dealing with empty history and actions [BET, PASS]; its information set is "." |
| KuhnGame.IndexOf | kuhn_game.py:33-35 | the lookup behind `children[action]` finds the position of a key exactly when the key is present |
| KuhnGame.Play | kuhn_game.py:33-35 | `play(a)` returns the child stored under `a` and fails (KeyError, `None`) exactly when `a` is not a child key |
| KuhnGame.Eval | kuhn_game.py:131-150 | `eval` is `None` exactly at non-terminal nodes, and a terminal payoff is one of −2, −1, 1, 2 |
| KuhnGame.Node.IsRoot | kuhn_game.py:38-40 | `is_root`: exactly six children; `KuhnTree.NodeFacts` proves it holds at the root of the tree and nowhere else |
| KuhnGame.Node.IsTerminal | kuhn_game.py:43-45 | `is_terminal`: no children; `KuhnGame.DealNodeFacts` proves it holds exactly at the five terminal histories |
| KuhnGame.Node.CardViz | kuhn_game.py:97-99 | `card_viz`: the acting player's own card, both cards at a terminal; `KuhnGame.InfoSetIgnoresOpponentCard` proves the opponent's card never shows before the end |
| KuhnGame.Node.InfoSet | kuhn_game.py:101-105 | `info_set`: "." at the root (line 64), "{player}:{card_viz}-{hist}" plus "-." or "." below; `KuhnTree.InfoSetHead`, `KuhnTree.InfoSetLead` and `KuhnTree.SameInfoSetSameKeys` state its shape and that one key always means one set of actions |
| KuhnGame.NextActions | kuhn_game.py:115-128 | `get_next_node_actions`: [BET, PASS] at stage 0, again only after PASS then BET at stage 1, none after; `KuhnGame.DealNodeFacts` and `KuhnGame.PlayersAlternate` state the tree it builds |
| KuhnGame.Preorder | kuhn_game.py:83-91 | the depth-first order of the recursive construction starts at the node itself |
| KuhnGame.DealSubtreeShape | kuhn_game.py:83-91 | the constructor below one dealing builds exactly the nine-node betting tree of the Kuhn rules |
| KuhnGame.MakePair | kuhn_game.py:83-91 | a node with both actions has the BET child then the PASS child, each built with the other player and `get_next_node_actions` |
| KuhnGame.MakeLeaf | kuhn_game.py:94-95 | a node built with no actions is a terminal leaf with player −1 |
| KuhnGame.DealNodeFacts | kuhn_game.py:115-128 | below a dealing a node is terminal exactly when its history is BET-BET, BET-PASS, PASS-PASS, PASS-BET-BET or PASS-BET-PASS; terminals have player −1 and no actions; the others have [BET, PASS] and player 1 + len(hist) mod 2 |
| KuhnGame.DealTreePreorder | kuhn_game.py:83-91 | the pre-order of a dealing's subtree is its nine nodes in construction order |
| KuhnGame.DealNodesOk | kuhn_game.py:115-128 | every one of those nine nodes satisfies the betting rule and player facts |
| KuhnGame.RootShape | kuhn_game.py:50-65 | the root built from DEALINGS has six children, is a root (`is_root`), has information set ".", and each child is a player-1 node with empty history and actions [BET, PASS] |
| KuhnGame.PlayersAlternate | kuhn_game.py:83-95 | from parent to child the player switches between 1 and 2, a childless child has player −1, and the child's history and actions are the parent's history plus the action and `get_next_node_actions` |
| KuhnGame.InfoSetIgnoresOpponentCard | kuhn_game.py:97-105 | nodes with the same player, own card and history get the same information set whatever the opponent's card |
| KuhnGame.MapRewardsRanks | kuhn_game.py:10-15 | MAP_REWARDS has exactly the six dealings as keys, is +1 exactly when player 1's card ranks higher in J < Q < K and −1 otherwise, and reversing a dealing negates it |
| KuhnGame.DealingsAll | kuhn_game.py:11 | DEALINGS has six entries, no two equal, and holds exactly the dealings that give the players different cards |
| KuhnGame.EvalIsKuhnPayoff | kuhn_game.py:131-150 | at every terminal below a dealing, `eval` pays the Kuhn payoff: 2·MAP_REWARDS after BET-BET, +1 after BET-PASS, −1 after PASS-BET-PASS, MAP_REWARDS after PASS-PASS |
| KuhnGame.EvalOfHistory | kuhn_game.py:138-150 | for any terminal node whose dealing is in MAP_REWARDS and whose history is one of the five terminal histories, `eval` pays that Kuhn payoff |
| KuhnTree.PreWalkIsFold | kuhn_game.py:83-91 | the recursive walk the solvers perform (visit the node, then each child in key order) applies its step to the nodes exactly in pre-order |
| KuhnTree.PreKidsIsFold | kuhn_game.py:83-91 | the walk over the children from position i on is the fold over their pre-orders |
| KuhnTree.PreKidsNext | kuhn_game.py:83-91 | the loop over the children walks child i, then the rest, and past the last child changes nothing |
| KuhnTree.PreWalkStart | kuhn_game.py:83-91 | the walk visits the node first, then its children |
| KuhnTree.PreWalkLeaf | kuhn_game.py:43-45 | at a terminal the walk is the single step on the node |
| KuhnTree.KidOrders | kuhn_game.py:83-91 | one pre-order per child, in child order |
| KuhnTree.ChildInTree | kuhn_game.py:33-35 | `play` from a node of the tree stays in the tree |
| KuhnTree.TreeMember | kuhn_game.py:50-62 | every node of the tree is the root or lies below one of the six dealings |
| KuhnTree.KeysOf | kuhn_game.py:50-62 | an information set's keys are the six dealings at ".", none at a terminal, or the two actions |
| KuhnTree.InfoSetLead | kuhn_game.py:103-105 | below the root an information set starts with the first character of the player number |
| KuhnTree.InfoSetHead | kuhn_game.py:103-105 | below the root an information set is never ".", and it starts with '-' exactly at terminals (player −1) |
| KuhnTree.DealNodeKeys | kuhn_game.py:83-95 | a node below a dealing is not a root, is evaluable, and carries the keys of its information set: none at a terminal (player −1), [BET, PASS] otherwise for player 1 or 2 |
| KuhnTree.NodeFacts | kuhn_game.py:38-45 | in the tree `is_root` holds exactly at the root, whose keys are the dealings; every other node is a betting node with keys [BET, PASS] or a terminal with player −1 and no keys |
| KuhnTree.SameInfoSetSameKeys | kuhn_game.py:99-105 | nodes sharing an information set share their child keys, so one table row fits all of them |
| CfrStore.Max0 | cfr_algos.py:103 | `np.maximum(r, 0)` on one entry: non-negative, at least r, and either r or 0 |
| CfrStore.PosSum | cfr_algos.py:103-105 | the normaliser `np.sum(np.maximum(r, 0))` is non-negative |
| CfrStore.RegretMatch | cfr_algos.py:99-112 | the row `update_sigma` writes has the same keys as the old `sigma` row and no negative entry |
| CfrStore.Normalise | cfr_algos.py:34-50 | the row `compute_ne` writes has exactly the keys of the `sigma` row |
| CfrStore.InitRow | cfr_algos.py:76-78 | `init_map`'s row for a node has exactly the node's actions as keys |
| CfrStore.RegretMatchIsDistribution | cfr_algos.py:99-112 | regret matching over two actions gives non-negative entries summing to 1; when some regret is positive each entry is max(r, 0) over the sum of positive parts |
| CfrStore.RegretMatchSumPositive | cfr_algos.py:112 | with a positive normaliser the thresholded and divided row sums to 1 |
| CfrStore.RegretMatchSumUniform | cfr_algos.py:112 | with no positive regret the uniform 1/N_ACTIONS row over two actions sums to 1 |
| CfrStore.NormaliseIsDistribution | cfr_algos.py:34-50 | normalising non-negative `sigma_cum` mass, or falling back to uniform, gives a probability distribution |
| CfrStore.NormalisePositive | cfr_algos.py:50 | with a positive total the normalised row sums to 1 |
| CfrStore.NormaliseUniform | cfr_algos.py:50 | with a zero total the uniform row over two actions sums to 1 |
| CfrStore.InitRowIsDistribution | cfr_algos.py:76-78 | the uniform row of `init_map("prob")` over distinct actions is a probability distribution |
| CfrStore.SumOfScaled | cfr_algos.py:50 | dividing every entry by a positive total divides the sum by it |
| CfrStore.SumOfPositiveParts | cfr_algos.py:103-105 | summing the thresholded entries gives the normaliser |
| CfrStore.SumOfConstant | cfr_algos.py:77 | a constant row sums to the constant times the number of keys |
| CfrStore.SumNonNeg | cfr_algos.py:36 | a row without negative entries has a non-negative sum |
| CfrStore.WriteNonNeg | cfr_algos.py:112-114 | writing a non-negative row into a non-negative table keeps it non-negative |
| CfrStore.WriteGrows | cfr_algos.py:114 | writing a row no smaller entry by entry makes the table grow |
| CfrStore.WriteSameShape | cfr_algos.py:108-114 | writing a row with the same keys keeps the table's shape |
| CfrSpec.InitRowAt | cfr_algos.py:323-338 | the row `init_map` writes at a node has exactly the node's actions as keys, whether copied from `user_sigma` or uniform/zero |
| CfrSpec.InitRowOf | cfr_algos.py:323-338 | the row of an information set, whichever of its nodes wrote it, has exactly that information set's action keys |
| CfrSpec.InitStepAt | cfr_algos.py:76-78 | one step of `init_map_rec` overwrites the node's information set with its row and nothing else |
| CfrSpec.WriteFold | cfr_algos.py:72-84 | a walk that writes `val(s)` at selected nodes ends with the old keys plus the selected information sets, holding `val(s)` there and the old rows elsewhere |
| CfrSpec.InitMapKeys | cfr_algos.py:66-86 | `init_map` has a key for exactly the information sets of the tree |
| CfrSpec.InitMapRows | cfr_algos.py:66-86 | every row of `init_map` is that information set's initial row |
| CfrSpec.InitMapContents | cfr_algos.py:317-346 | `init_map(fill)` writes exactly the tree's information sets, each with its initial row, and covers every node's keys |
| CfrSpec.InitMap | cfr_algos.py:317-346 | `init_map(fill)` as the pre-order walk that writes each node's initial row; `CfrSpec.InitMapContents` states its keys and rows |
| CfrSpec.InitRowDeals | cfr_algos.py:76-78 | the "prob" row at the root gives each of the six dealings 1/6 |
| CfrSpec.InitRowActions | cfr_algos.py:76-78 | the "prob" row at a betting node gives BET and PASS 1/2 each |
| CfrSpec.InitMapUniform | cfr_algos.py:66-86 | without user rows, `init_map("prob")` maps "." to 1/6 per dealing, terminal information sets to {} and betting ones to 1/2 per action |
| CfrSpec.AddRow | cfr_algos.py:114 | `sigma_cum[s][a] += sigma[s][a]` keeps the row's keys |
| CfrSpec.Matched | cfr_algos.py:99-112 | the regret-matched row of an information set has exactly its action keys |
| CfrSpec.VisitsPositive | cfr_algos.py:89-120 | an information set is rewritten by the pass exactly when the walk visits it at least once at an updating node |
| CfrSpec.GrownStep | cfr_algos.py:114 | k additions of a row after one more is k + 1 additions; zero additions change nothing |
| CfrSpec.UpdateStepAt | cfr_algos.py:90-114 | one node of `update_sigma_rec` rewrites `sigma[s]` with the regret-matched row and adds it to `sigma_cum[s]` exactly at an updating node (not root, terminal or user), and changes nothing otherwise |
| CfrSpec.StepKeeps | cfr_algos.py:90-114 | one step leaves the rows of every other information set alone |
| CfrSpec.UpdateFold | cfr_algos.py:89-120 | over any run of tree nodes, the fold leaves unvisited rows untouched and leaves each visited information set with the matched row in `sigma` and k additions of it in `sigma_cum`, k being its visit count |
| CfrSpec.UpdatePassContents | cfr_algos.py:89-120 | after `update_sigma`, an information set shared by k updating nodes holds the regret-matched row in `sigma` and has grown by k times it in `sigma_cum`; every other row is unchanged and `r_cum` is not an output at all |
| CfrSpec.UpdatePass | cfr_algos.py:89-120 | `update_sigma` as the pre-order walk that rewrites `sigma` and adds to `sigma_cum` at each decision node; `CfrSpec.UpdatePassContents` states what it leaves |
| CfrSpec.UpdatedRowsAreDistributions | cfr_algos.py:99-112 | after `update_sigma`, every rewritten `sigma` row is non-negative and sums to 1 |
| CfrSpec.DecisionNode | cfr_algos.py:43-50 | at a decision node the information set names the acting player and carries the node's keys |
| CfrSpec.NeStepSkip | cfr_algos.py:38-42 | `compute_ne_rec` writes nothing at the root or a terminal |
| CfrSpec.NeStepUser | cfr_algos.py:287-293 | at a user node the bot's `compute_ne` writes the user's row, or {} when the user gave none |
| CfrSpec.NeStepOther | cfr_algos.py:294-301 | at a bot node `compute_ne` writes normalised `sigma_cum`, uniform when the total is 0 |
| CfrSpec.NeStepAt | cfr_algos.py:30-54 | one node of `compute_ne_rec` writes its row exactly at a decision node |
| CfrSpec.ComputeNeContents | cfr_algos.py:24-58 | `compute_ne` has keys for exactly the decision information sets, each holding its normalised (or user) row |
| CfrSpec.ComputeNe | cfr_algos.py:24-58 | `compute_ne` as the pre-order walk that writes a row at each decision node; `CfrSpec.ComputeNeContents` states its keys and rows |
| CfrSpec.NeRow | cfr_algos.py:265-306 | the row `compute_ne` writes: `sigma_cum` normalised, uniform when its total is 0, the user's own row at the user's information sets; `CfrSpec.NeStepOther` and `CfrSpec.NeStepUser` state it |
| CfrSpec.ComputeNeDistributions | cfr_algos.py:24-58 | where `sigma_cum` is non-negative every non-user row of `compute_ne` is a probability distribution |
| CfrPass.RegretRow | cfr_algos.py:178-185 | `r_cum[s][a]` after the closing loop: for each action, the old value plus other-reach × (u_a − u_tot) × sign, thresholded at 0 under CFR+; other keys unchanged |
| CfrPass.CumRow | cfr_algos.py:186 | `sigma_cum[s][a] += own-reach × sigma[s][a]` for each action, other keys unchanged |
| CfrPass.WalkUtility | cfr_algos.py:144-188 | the value `compute_u` returns is the expected payoff of the current profile: the 1/6 average over dealings at the root (the drawn dealing under chance sampling), `eval` at a terminal, the sigma-weighted sum of child values elsewhere |
| CfrPass.UWalk | cfr_algos.py:144-188 | `compute_u(node, p, p_cfr)` of CFR+ (and of chance sampling, cfr_algos.py:201-240) as a walk returning the value and the tables it leaves; `CfrPass.WalkUtility` proves the value is `Utility`, `CfrPass.NodeRegret` and `CfrPass.WalkKeeps` state the table updates |
| CfrPass.Utility | cfr_algos.py:144-188 | the independent reference for what `compute_u` returns: the expected payoff to player 1 when both players follow `sigma`; `CfrPass.WalkUtility` proves the walk equal to it |
| CfrPass.RootWalk | cfr_algos.py:151-158 | at the root CFR+ returns (1/6) × the sum of the six deal utilities, walked with reaches 1 |
| CfrPass.RootKidsUtility | cfr_algos.py:152-155 | the root loop adds up the children's utilities |
| CfrPass.KidsWalkUtility | cfr_algos.py:165-173 | the action loop accumulates `u_tot += sigma[s][a] × u_a` over the actions |
| CfrPass.KidsWalkValues | cfr_algos.py:172 | the loop's `u_actions` hold the children's utilities |
| CfrPass.ValuesAt | cfr_algos.py:172 | with distinct keys every action ends up holding its own child's utility |
| CfrPass.DecisionWalk | cfr_algos.py:163-188 | at a decision node `compute_u` walks the actions, then runs the closing loop, and returns the sigma-weighted sum |
| CfrPass.DecisionValues | cfr_algos.py:163-188 | what the closing loop reads: u_tot is the node's utility and each `u_actions[a]` the child's |
| CfrPass.NodeUpdateFires | cfr_algos.py:176-185 | the closing loop writes each action's regret into the node's `r_cum` row, the counterfactual reach being the opponent's |
| CfrPass.NodeRegret | cfr_algos.py:176-185 | after `compute_u` at a decision node, `r_cum[s][a]` = Threshold(old + other-reach × (u(child a) − u(node)) × (+1 for player 1, −1 for player 2)) |
| CfrPass.NodeUpdate | cfr_algos.py:176-185 | the closing loop of `compute_u` at a decision node, adding the regret to `r_cum` and the reach-weighted strategy to `sigma_cum` for each action; `CfrPass.NodeUpdateFires` and `CfrPass.NodeRegret` state each entry it writes |
| CfrPass.RegretBalance | cfr_algos.py:173-181 | when the node's `sigma` row sums to 1 the sigma-weighted sum of (u_a − u_tot) is 0 |
| CfrPass.MassSplit | cfr_algos.py:181 | the weighted regret mass is the expected value minus u_tot times the total weight |
| CfrPass.ExpectedDot | cfr_algos.py:173 | the accumulated `u_tot` is the dot product of the weights and the action values |
| CfrPass.WeightsTotal | cfr_algos.py:173 | the weights total the `sigma` row's sum |
| CfrPass.RegretRowNonNeg | cfr_algos.py:185 | CFR+'s `max(r_cum + r, 0)` keeps a non-negative row non-negative |
| CfrPass.CumRowGrows | cfr_algos.py:186 | adding a non-negative reach times a non-negative `sigma` never lowers `sigma_cum` |
| CfrPass.NodeUpdateKeeps | cfr_algos.py:178-186 | the closing loop keeps every row's keys, keeps CFR+ regrets non-negative and, with non-negative reaches, never lowers `sigma_cum` |
| CfrPass.ReachNonNeg | cfr_algos.py:168-169 | non-negative strategies keep the children's reaches non-negative |
| CfrPass.WalkKeeps | cfr_algos.py:144-240 | a whole `compute_u` walk keeps the tables' shape, keeps CFR+ regrets ≥ 0, and with a non-negative `sigma` never lowers `sigma_cum` |
| CfrPass.KidsWalkKeeps | cfr_algos.py:165-172 | the loop over a node's actions keeps the tables' shape, keeps CFR+ regrets ≥ 0 and never lowers `sigma_cum` |
| CfrPass.RootKidsKeeps | cfr_algos.py:152-155 | the loop over the root's dealings keeps the tables' shape, keeps CFR+ regrets ≥ 0 and never lowers `sigma_cum` |
| CfrSolver.CoversShape | cfr_algos.py:66-86 | a table with the same rows and keys as one covering every information set covers them too |
| CfrSolver.RoundSound | cfr_algos.py:123-131 | one training round keeps the solver's invariant (every information set has a row, CFR+ regrets ≥ 0, `sigma` a distribution) |
| CfrSolver.RoundsSound | cfr_algos.py:123-131 | any number of training rounds keep that invariant |
| CfrSolver.Round | cfr_algos.py:129-131 | one turn of `train`: `compute_u(root)`, then `update_sigma()` on the regrets it left; `CfrSolver.RoundSound` proves it keeps `Sound`, `CfrSolver.Solver.TrainRound` is the method it specifies |
| CfrSolver.Rounds | cfr_algos.py:123-131 | `train` with the dealings drawn in each round; `CfrSolver.RoundsSound` proves it keeps `Sound`, `CfrSolver.Solver.Train` is the method it specifies |
| CfrSolver.Sound | cfr_algos.py:123-131 | the solver invariant: all three tables have a row with the node's actions at every information set of the tree, and CFR+ regrets are never negative; kept by `CfrSolver.RoundSound`, established by `CfrSolver.InitialSound` |
| CfrSolver.ZeroRowNonNeg | cfr_algos.py:76-78 | a row built by `init_map("zero")` has no negative entry |
| CfrSolver.ZeroMapNonNeg | cfr_algos.py:66-86 | `init_map("zero")` holds no negative entry |
| CfrSolver.InitialSound | cfr_algos.py:66-86 | a fresh solver satisfies the invariant: uniform `sigma`, zero `r_cum` and `sigma_cum` on every information set |
| CfrSolver.Initial | cfr_algos.py:10-21 | the tables the constructor builds: `init_map("prob")`, then `init_map("zero")` twice; `CfrSolver.InitialSound` proves them sound |
| CfrSolver.PlayedReward | cfr_algos.py:412-427 | a round of `play` records a reward in {−2, −1, 1, 2} |
| CfrSolver.PlayedExtend | cfr_algos.py:412-427 | appending one played round to a record of rounds gives a record of one more round |
| CfrSolver.PlayedRounds | cfr_algos.py:412-427 | the tables before round e of `play` are exactly those of e training rounds on the same dealings |
| CfrSolver.BuildMap | cfr_algos.py:66-86 | `init_map(fill)` returns the table the preorder walk from the root builds |
| CfrSolver.InitMapRec | cfr_algos.py:72-82 | `init_map_rec` writes a node's row, then recurses into its children in order |
| CfrSolver.Solver.Plain | cfr_algos.py:10-21 | `CFRPlus(root)`/`CsCFR(root)` start with uniform strategies, zero regrets and zero mass, no user |
| CfrSolver.Solver.Bot | cfr_algos.py:247-263 | the bots start the same way, except that the user's information sets take the user's strategy |
| CfrSolver.Solver.UpdateSigma | cfr_algos.py:89-120 | `update_sigma` replaces `sigma` by regret matching on `r_cum` and adds the new `sigma` to `sigma_cum`, at every decision node in preorder; `r_cum` is unchanged |
| CfrSolver.Solver.UpdateRec | cfr_algos.py:90-118 | the recursive part of `update_sigma` does the same below one node |
| CfrSolver.Solver.ComputeU | cfr_algos.py:144-188 | `compute_u` returns the expected utility of the profile and leaves the tables as the utility walk's accumulator prescribes |
| CfrSolver.Solver.RootU | cfr_algos.py:151-158 | at the root the returned value is 1/6 of the sum over the dealings |
| CfrSolver.Solver.DecisionU | cfr_algos.py:163-188 | at a decision node: walk the actions, then apply the regret and mass update |
| CfrSolver.Solver.ActionU | cfr_algos.py:165-173 | one turn of the action loop advances the walk by one child |
| CfrSolver.Solver.TrainRound | cfr_algos.py:127-131 | one training round is `compute_u(root)` then `update_sigma()`, and keeps the invariant |
| CfrSolver.Solver.Train | cfr_algos.py:123-131 | `train(n)` runs n rounds on the given dealings and keeps the invariant |
| CfrSolver.Solver.TraverseTree | cfr_algos.py:396-409 | `traverse_tree` plays the dealt hand out with the current strategy for both seats and returns the payoff |
| CfrSolver.Solver.PlayRound | cfr_algos.py:415-425 | one round of `play`: a hand against the current strategy, then a training round |
| CfrSolver.Solver.PlayRounds | cfr_algos.py:412-427 | `play(n, tracking)` trains n rounds, returns the rewards only when tracking, and each reward comes from the tables of that round |
| CfrSolver.Solver.ComputeNe | cfr_algos.py:24-58 | `compute_ne` returns the average strategy table |
| CfrSolver.Solver.NeRec | cfr_algos.py:30-54 | its recursive part fills the table in preorder |
| CfrSolver.Solver.NeNode | cfr_algos.py:34-50 | no entry at the root or a terminal; the normalised `sigma_cum` (or the user's strategy) at a decision node |
| KuhnSample.FirstAbove | cfr_algos.py:390 | `np.argmax(rnd < cumsum)`: the first position whose cumulative sum exceeds `rnd`, and position 0 when none does (argmax of an all-false array) |
| KuhnSample.SampleAction | cfr_algos.py:383-393 | `sample_action` picks one of the row's actions, and picks one exactly when the row is not empty; `sample_action` of `kuhn_fun.py` and of `src/kuhn/kuhn_utils.py` is the same code |
| KuhnSample.CumSum | cfr_algos.py:390 | the row's total is the cumulative sum up to i plus the rest |
| KuhnSample.Cum | cfr_algos.py:390 | `np.cumsum` of the row's values in key order, up to a position; `KuhnSample.CumSum` and `KuhnSample.SampleLands` state how `sample_action` uses it |
| KuhnSample.SampleLands | cfr_algos.py:389-391 | with 0 ≤ rnd below the total, the chosen action is the one whose interval [cum before, cum after) holds rnd, and that interval is as wide as the action's probability |
| KuhnSample.SampleDistribution | kuhn_fun.py:99-109 | on a probability row with rnd in [0, 1) no fallback happens: the action returned is the one whose cumulative interval holds rnd |
| KuhnPlay.Listed | cfr_algos.py:391 | `list(sigma_i.keys())`: the row's actions in the node's action order |
| KuhnPlay.Playing | kuhn_game.py:76-105 | every node of the tree has one child per action, and every terminal can be evaluated |
| KuhnPlay.PlayInTree | kuhn_game.py:33-35 | `play(a)` on one of the node's actions yields a node of the tree, never the root again |
| KuhnPlay.PlayOut | cfr_algos.py:396-409 | the loop of `traverse_tree`: when it ends it pays one of −2, −1, 1, 2; a missing row or key ends it without a payoff (the source raises) |
| KuhnPlay.PlayOutPays | cfr_algos.py:400-409 | with a row for every betting node, a hand dealt below the root always ends with a payoff |
| KuhnPlay.CoversReady | cfr_algos.py:383-393 | a table with a row for every information set, as a solver's `sigma` is, can be sampled everywhere |
| KuhnPlay.Dealt | kuhn_game.py:68-71 | `deal_cards()` yields the child for the drawn dealing: a betting node with those cards and an empty history |
| KuhnPlay.PlayHand | kuhn_fun.py:15-25 | the hand loop of `evaluate`: from the dealt node, sample from the user's table at the user's nodes and the bot's elsewhere until a terminal, whose `eval()` is the payoff |
| KuhnPlay.PlayOutStops | kuhn_fun.py:102 | a hand stops without a payoff where the table lacks the node's row |
| KuhnPlay.PlayOutNext | kuhn_fun.py:24-25 | otherwise it goes on from the child of the sampled action, with the next draw |
| KuhnPlay.PlayOutEnd | kuhn_fun.py:18-21 | at a terminal the hand pays `eval()` |
| KuhnFun.UserSetsCons | kuhn_fun.py:36-45 | the user's information sets of a node list are those of its head and of its tail |
| KuhnFun.SetsFold | kuhn_fun.py:36-45 | `get_sets_rec` keeps `sets` free of repeats, only appends, and adds exactly the user's information sets of the nodes it visits |
| KuhnFun.AllInfoSetsContents | kuhn_fun.py:30-49 | `get_all_info_sets(user)` lists each information set where `user` acts, exactly once |
| KuhnFun.AllInfoSets | kuhn_fun.py:30-49 | `get_all_info_sets(user)` as the pre-order walk that appends each new information set of the user; `KuhnFun.AllInfoSetsContents` and `KuhnFun.AllInfoSetsOfPlayer1`/`2` state what it lists |
| KuhnFun.AllInfoSetsCount | kuhn_fun.py:30-49 | the list has as many entries as `user` has information sets |
| KuhnFun.InDealSets | kuhn_game.py:97-105 | below a dealing, player 1 acts on its own card with history "" or "PASS-BET", player 2 on its own card with history "BET" or "PASS" |
| KuhnFun.UserSetsOfPlayer1 | kuhn_fun.py:36-45 | the information sets where player 1 acts are exactly "1:X-." and "1:X-PASS-BET-." for X in J, Q, K |
| KuhnFun.UserSetsOfPlayer2 | kuhn_fun.py:36-45 | the information sets where player 2 acts are exactly "2:X-BET-." and "2:X-PASS-." for X in J, Q, K |
| KuhnFun.AllInfoSetsOfPlayer1 | kuhn_fun.py:30-49 | `get_all_info_sets(1)` returns those six keys, each once |
| KuhnFun.AllInfoSetsOfPlayer2 | kuhn_fun.py:30-49 | `get_all_info_sets(2)` returns those six keys, each once |
| KuhnFun.GetAllInfoSets | kuhn_fun.py:30-49 | `get_all_info_sets(user)` returns each information set where `user` acts exactly once, in first-visit pre-order; the copy in `src/kuhn/kuhn_utils.py` is the same walk |
| KuhnFun.GetSetsRec | kuhn_fun.py:36-45 | the recursion appends at the node, then walks the children in order |
| KuhnFun.Hand | kuhn_fun.py:15-25 | one hand of `evaluate` pays −2, −1, 1 or 2 when it ends |
| KuhnFun.Hands | kuhn_fun.py:14-25 | one hand per round, round e played on the e-th dealing and draws |
| KuhnFun.Collect | kuhn_fun.py:14-27 | the reward list exists exactly when every round produced a payoff, and then holds them in order |
| KuhnFun.HandsPay | kuhn_fun.py:8-27 | with a row for every betting node in the tables used, `evaluate` returns a payoff for every round |
| KuhnFun.AgreeExtend | kuhn_fun.py:20 | appending the next round's payoff keeps the list in step with the hands |
| KuhnFun.AgreeAll | kuhn_fun.py:27 | a list in step with all hands is what `evaluate` returns |
| KuhnFun.AgreeNone | kuhn_fun.py:24 | one failed round makes the whole call fail |
| KuhnFun.Evaluate | kuhn_fun.py:8-27 | `evaluate` returns the payoffs of the hands, in order, or fails when one hand raises; the copy in `src/kuhn/kuhn_utils.py` is the same loop |
| KuhnFun.ModeOf | kuhn_fun.py:89-92 | the name "CFR +" selects CFR+, every other name chance sampling |
| KuhnFun.TrainBot | kuhn_fun.py:83-96 | `train_bot` returns a fresh plain solver of the named variant after `bot_exp` training rounds |
| KuhnFun.Digit | kuhn_fun.py:130 | `int(info_set[0])` is a digit 0..9 |
| KuhnFun.FilterBotNe | kuhn_fun.py:129-132 | the loop keeps exactly the entries whose leading digit differs from `user`, unchanged; it fails when a key does not start with a digit; the copy in `src/kuhn/kuhn_utils.py` is the same filter |
| KuhnFun.BotNe | kuhn_fun.py:126-132 | the filter at the end of `simulate`, `None` where `int(info_set[0])` raises; `KuhnFun.FilterBotNe` proves the loop computes it and `KuhnFun.BotNeOfSolver` what it keeps |
| KuhnFun.DecisionSetHead | kuhn_game.py:103-105 | a decision information set starts with the digit of the player acting there |
| KuhnFun.BotNeOfSolver | kuhn_fun.py:126-132 | after any training the filter never fails and keeps exactly the bot's decision sets, each with its average strategy |
| KuhnFun.Simulate | kuhn_fun.py:112-134 | `simulate` returns one payoff per round in {−2, −1, 1, 2} and the bot's average strategy on exactly the information sets where the user does not act |
| Chomp.RowCellsFacts | chomp_minimax.py:41 | the inner comprehension lists row i's cells from column j on, once each, in order |
| Chomp.RowsFacts | chomp_minimax.py:41 | the comprehension lists every cell of the board exactly once, n_rows × n_cols of them, in row-major order |
| Chomp.State.Bite | chomp_minimax.py:60-72 | `bite(r, c)` keeps the board size, records (r, c) as the last bite, is not the root, and its bites are exactly the parent's that (r, c) does not eat |
| Chomp.Remaining | chomp_minimax.py:44-52 | the non-root branch of `init_allowed_bites` never lengthens the list |
| Chomp.RemainingCells | chomp_minimax.py:48-52 | it keeps exactly the parent's cells with `i < last_r or j < last_c` |
| Chomp.RemainingShrinks | chomp_minimax.py:113-115 | biting a listed cell removes at least that cell, so the search terminates |
| Chomp.Child | chomp_minimax.py:115 | the child of the k-th bite has fewer bites |
| Chomp.Value | chomp_minimax.py:87-138 | the negamax value of a position is −1 or +1 |
| Chomp.Best | chomp_minimax.py:113-129 | the loop's pick among the first i bites is one of them, with value ±1 |
| Chomp.BestMove | chomp_minimax.py:89-92 | no move is reported exactly at a terminal state |
| Chomp.Beats | chomp_minimax.py:111-127 | `n_skipped` keeps its infinite start value (the loop never updates it), so every equally good bite wins the tie-break |
| Chomp.Negamax | chomp_minimax.py:87-138 | `negamax` returns ±1; a terminal gives (None, −1) and the memo untouched; otherwise the result is stored under `str(state)`; with single-digit indices it is the position's value and best move |
| Chomp.TrustedHit | chomp_minimax.py:100-102 | a memo hit on a single-digit position returns that position's true result |
| Chomp.TrustedStore | chomp_minimax.py:133-136 | storing the result keeps every memo entry correct |
| Chomp.Consider | chomp_minimax.py:114-129 | one turn of the loop: search the child with the other player, negate, and keep the pick of the first k + 1 bites |
| Chomp.RootCells | chomp_minimax.py:39-43 | the root lists every cell but (0, 0), sorted, closed up-left, n_rows × n_cols − 1 of them; `l.pop(0)` fails exactly on an empty board |
| Chomp.Root | chomp_minimax.py:7-22 | `ChompState(n_rows, n_cols)`: every cell but (0, 0), `None` where `pop(0)` raises on an empty board; `Chomp.RootCells` states it |
| Chomp.State.IsRoot | chomp_minimax.py:75-76 | `is_root`: no bite has been taken; `Chomp.State.Bite` proves no child is a root |
| Chomp.State.IsTerminal | chomp_minimax.py:79-80 | `is_terminal`: no bite left; `Chomp.BestMove` proves it is exactly the case with no move to return |
| Chomp.RemainingSorted | chomp_minimax.py:48-52 | a bite keeps the parent's order |
| Chomp.BiteFacts | chomp_minimax.py:56-57 | after a bite the cell is gone, the list stays sorted and closed up-left, and `skipped_bites` grows by the cells eaten beyond the one bitten |
| Chomp.RemainingKeepsAll | chomp_minimax.py:48-52 | a bite that eats nothing listed keeps the list unchanged |
| Chomp.SortedUnique | chomp_minimax.py:24-34 | two sorted lists of the same cells are equal, so `str(state)` depends only on the remaining cells, not on the history |
| Chomp.RawInjective | chomp_minimax.py:30-31 | with single-digit indices the text before the cut determines the cells |
| Chomp.RawEnds | chomp_minimax.py:32 | the text is empty or ends with the dash that `s[:-1]` drops |
| Chomp.KeyInjective | chomp_minimax.py:24-34 | with single-digit indices `str(state)` names the cells uniquely |
| Chomp.State.Key | chomp_minimax.py:24-34 | `str(state)`, the memo key; `Chomp.SortedUnique`, `Chomp.KeyInjective` and `Chomp.KeyCollision` state when it names a position uniquely |
| Chomp.KeyCollision | chomp_minimax.py:31 | with two-digit indices it does not: (1, 11) and (11, 1) both give "111" |
| Chomp.BestIsLastMax | chomp_minimax.py:120-129 | the loop keeps the last of the bites with the greatest negated child value |
| Chomp.ValueWins | chomp_minimax.py:113-138 | a position is won exactly when some bite leaves the opponent a lost position, and the reported bite is the last best one |
| Chomp.RootTwoByTwo | chomp_minimax.py:39-43 | the 2 × 2 root lists (0, 1), (1, 0), (1, 1) |
| Chomp.SingleWins | chomp_minimax.py:113-129 | one cell left is a win: bite it |
| Chomp.PairLoses | chomp_minimax.py:113-129 | two cells that each eat only themselves are a loss |
| Chomp.ThreeWinsLast | chomp_minimax.py:113-129 | three bites of which only the last leaves a lost position: a win by the last bite |
| Chomp.TwoByTwo | chomp_minimax.py:87-138 | on the 2 × 2 board the first player wins by biting (1, 1) |
| Connect4.Initial | src/c4/c4_game.py:6-16 | a new state is an all-zero board of the given size; `np.zeros` fails on a negative size; the older `connect_4_minimax.py` builds the same board |
| Connect4.Column | src/c4/c4_game.py:45 | `board[:, c]` lists column c from row 0 up |
| Connect4.FirstEmpty | src/c4/c4_game.py:45 | `np.argmax(col == 0)`: the first empty row, or 0 when the column has none |
| Connect4.LandingRow | src/c4/c4_game.py:44-48 | the row `add_disc` writes is a row of the column (0 when the column holds no positive cell) |
| Connect4.AddDisc | src/c4/c4_game.py:32-54 | `add_disc` returns a board of the same size; it fails exactly when the column index is out of numpy's range [−n_cols, n_cols) or the board has no row; the older `connect_4_minimax.py` has the same `add_disc` |
| Connect4.CheckWin | src/c4/c4_game.py:56-90 | `check_win(player)` holds exactly when the player has four in a row horizontally, vertically or on either diagonal; the older `connect_4_minimax.py` calls it `check_alignments(player)` |
| Connect4.Wins | src/c4/c4_game.py:56-90 | the independent reference for `check_win`: four cells of the player in one row, column or diagonal; `Connect4.CheckWin` proves the loops equal to it |
| Connect4.HorizontalWin | src/c4/c4_game.py:66-70 | the horizontal loops find a run exactly when one exists |
| Connect4.VerticalWin | src/c4/c4_game.py:72-76 | the vertical loops find a run exactly when one exists |
| Connect4.DiagonalWin | src/c4/c4_game.py:78-82 | the main-diagonal loops find a run exactly when one exists |
| Connect4.AntiDiagonalWin | src/c4/c4_game.py:84-88 | the secondary-diagonal loops (start rows 3 .. n_rows − 1) find a run exactly when one exists |
| Connect4.SmallBoardNoWin | src/c4/c4_game.py:64-90 | no run of four fits on a board under four rows and under four columns |
| Connect4.Str | src/c4/c4_game.py:18-30 | `__str__` writes the rows from the top down, each row's cells followed by "-", and drops the last dash; the older `connect_4_minimax.py` has the same `__str__` |
| Connect4.RowStr | src/c4/c4_game.py:25-26 | the inner loop writes `str` of each cell of a row |
| Connect4.RowTextDigits | src/c4/c4_game.py:25-26 | a row of single digits is written as one character per cell |
| Connect4.BoardRawLength | src/c4/c4_game.py:24-27 | a digit board's text has (n_cols + 1) characters per row |
| Connect4.BoardRawInjective | src/c4/c4_game.py:24-27 | equal texts come from equal digit boards of one shape |
| Connect4.KeyInjective | src/c4/c4_game.py:18-30 | on boards of one shape whose cells are single digits, `str` names the board: different boards, different keys |
| Connect4.Height | src/c4/c4_game.py:44-48 | the stack of a column: its leading positive cells, the next cell being empty or negative |
| Connect4.CountPositiveSettled | src/c4/c4_game.py:46 | on a settled column `np.sum(col > 0)` is the stack height |
| Connect4.FirstEmptyNone | src/c4/c4_game.py:45 | `argmax` of an all-False array is 0 |
| Connect4.AddDiscLands | src/c4/c4_game.py:42-54 | on a settled column with room the disc lands on the lowest empty row, just above the stack, and nothing else changes |
| Connect4.AddDiscRowZero | src/c4/c4_game.py:44-49 | with no legality check, an empty column and a full one both take the disc on row 0 (the latter overwrites the bottom disc) |
| Connect4.AddDiscGravity | src/c4/c4_game.py:32-54 | a positive player's move into a column with room keeps every column settled |
| Connect4.HeightGrows | src/c4/c4_game.py:49 | placing a positive disc on top of a settled stack raises it by one |
| Connect4.Discs | src/c4/c4_game.py:92-98 | the number of discs in a row is at most its length |
| Connect4.AddDiscCounts | src/c4/c4_game.py:32-54 | a non-zero disc dropped into a column with room adds exactly one disc to the board |
| Connect4.DiscsFull | src/c4/c4_game.py:94 | a row is full of discs exactly when no cell is 0, and empty exactly when every cell is 0 |
| Connect4.BoardDiscsFull | src/c4/c4_game.py:94 | the board holds n_rows × n_cols discs exactly when no cell is 0 |
| Connect4.BoardDiscsEmpty | src/c4/c4_game.py:98 | the board holds no disc exactly when every cell is 0 |
| Connect4.FullAndRoot | src/c4/c4_game.py:92-98 | `is_full` holds exactly at n_rows × n_cols discs and `is_root` exactly at none; the older `connect_4_minimax.py` has the same `is_full` |
| Connect4.IsFull | src/c4/c4_game.py:92-94 | `is_full`: no cell is 0; `Connect4.FullAndRoot` states it by disc count |
| Connect4.IsRoot | src/c4/c4_game.py:96-98 | `is_root`: every cell is 0; `Connect4.FullAndRoot` and `Connect4.InitialIsRoot` state it |
| Connect4.InitialIsRoot | src/c4/c4_game.py:12-16 | a new board is a root and obeys gravity |
| Connect4.IsTerminalAsWritten | connect_4_minimax.py:83-84 | `is_terminal` passes two arguments to the one-parameter `check_alignments`, so every call raises |
| Connect4.IsTerminal | connect_4_minimax.py:83-84 | the evident intent: over exactly when player 1 has four in a row, the board is full, or player 2 has four in a row |
| Connect4.RootNotTerminal | connect_4_minimax.py:83-84 | an all-zero board with at least one cell is not over |
| Bitboard.BottomMask | connect4_minimax.c:37-45 | the loop sets exactly the bottom bit of each of the seven columns |
| Bitboard.BottomsBits | connect4_minimax.c:28-36 | the bottom mask's set bits are the multiples of 7 below 49, one every `HEIGHT` bits |
| Bitboard.MaskBits | connect4_minimax.c:47-75 | `bottom_mask_col` holds only the column's bottom cell, `top_mask_col` only its sixth row, `col_mask` exactly its six playable rows |
| Bitboard.Board.Copy | connect4_minimax.c:183 | `Board child = *board` copies the three fields |
| Bitboard.Board.Init | connect4_minimax.c:82-86 | `init_board` zeroes the discs, the mask and the move count |
| Bitboard.Board.MakeMove | connect4_minimax.c:129-135 | `make_move` flips `position` to the other side, adds the carry of the column's bottom bit to `mask`, and counts the move |
| Bitboard.StackHeight | connect4_minimax.c:129-135 | the height of a column's stack is 0..6 (7 when the bits are not a stack) |
| Bitboard.DiscsBelow | connect4_minimax.c:134 | the discs of the columns before k are never negative |
| Bitboard.InitValid | connect4_minimax.c:82-86 | the empty board satisfies the invariant (columns are stacks, no bit above the playable rows, `position` within `mask`, `n_moves` counts the discs) and is not full |
| Bitboard.Valid | connect4_minimax.c:82-135 | the board invariant: columns are stacks from their bottom cell, nothing above the playable rows, `position` within `mask`, `n_moves` counting the discs; established by `Bitboard.InitValid`, kept by `Bitboard.PlayValid` |
| Bitboard.ValidMoveHeight | connect4_minimax.c:117-120 | `is_valid_move` holds exactly when the column holds fewer than six discs |
| Bitboard.ValidMove | connect4_minimax.c:117-120 | `is_valid_move`: the column's top cell is empty; `Bitboard.ValidMoveHeight` states it as fewer than six discs |
| Bitboard.NewCellAt | connect4_minimax.c:133 | the new cell is the single bit just above the column's stack |
| Bitboard.CarrySum | connect4_minimax.c:133 | `mask + bottom_mask_col(col)` carries up to the first empty cell, so or-ing it in adds exactly that cell |
| Bitboard.CarryCell | connect4_minimax.c:125 | inside `col_mask` the sum holds only the new cell, as `is_winning_move` uses it |
| Bitboard.CellFree | connect4_minimax.c:133 | the new cell was empty |
| Bitboard.PlayMask | connect4_minimax.c:129-135 | on a valid column `make_move` sets exactly one new bit of `mask` |
| Bitboard.StacksGrow | connect4_minimax.c:133-134 | the new cell keeps every column a stack and counts one more disc |
| Bitboard.MoveValid | connect4_minimax.c:129-135 | a move into a free column keeps the board invariant |
| Bitboard.PlayValid | connect4_minimax.c:129-135 | `make_move` on a valid column keeps the board invariant |
| Bitboard.Play | connect4_minimax.c:129-135 | `make_move` on the board's value; `Bitboard.Board.MakeMove` is the method it specifies, `Bitboard.PlayValid` proves it keeps the invariant |
| Bitboard.DiscsSum | connect4_minimax.c:134 | the disc count is the sum of the seven column heights |
| Bitboard.FullIffNoMove | connect4_minimax.c:137-139 | a valid board holds at most 42 discs, and `is_full` holds exactly when no column accepts a disc |
| Bitboard.IsFull | connect4_minimax.c:137-139 | `is_full`: 42 moves made; `Bitboard.FullIffNoMove` proves that means no column is valid |
| Bitboard.AlignedBitLine | connect4_minimax.c:98-115 | a set bit of one direction's shifted test starts a line of four discs in that direction |
| Bitboard.AlignedLineBit | connect4_minimax.c:98-115 | a line of four sets that bit |
| Bitboard.AlignedIff | connect4_minimax.c:98-115 | one direction's test is non-zero exactly when `pos` has four set bits that far apart |
| Bitboard.CheckWinFours | connect4_minimax.c:98-115 | `check_win(pos)` holds exactly when `pos` has four set bits in line at stride 1, 6, 7 or 8 |
| Bitboard.CheckWin | connect4_minimax.c:98-115 | `check_win`, the four shift-and tests; `Bitboard.CheckWinFours` and `Bitboard.CheckWinOnBoard` state it |
| Bitboard.Aligned | connect4_minimax.c:98-115 | one direction of `check_win`; `Bitboard.AlignedIff` states it |
| Bitboard.CellsBits | connect4_minimax.c:12-14 | the 42 cells are the bits 7c + r with column c < 7 and row r < 6, the seventh bit of each column (HEIGHT = ROWS + 1) left out |
| Bitboard.SettledTop | connect4_minimax.c:129-135 | a column whose discs are a stack of at most six from the bottom leaves its seventh bit empty |
| Bitboard.ValidCells | connect4_minimax.c:82-135 | on a valid board every disc, the side to move's and the other side's, lies on one of the 42 cells |
| Bitboard.NewCellOnBoard | connect4_minimax.c:129-135 | the cell `make_move` fills is one of the 42 cells |
| Bitboard.VerticalIff | connect4_minimax.c:110-112 | on discs within the cells, four set bits at stride 1 are exactly four discs up one column: the empty seventh bit stops a run at the top |
| Bitboard.HorizontalIff | connect4_minimax.c:100-102 | on discs within the cells, four set bits at stride 7 are exactly four discs along one row |
| Bitboard.RisingIff | connect4_minimax.c:107-108 | on discs within the cells, four set bits at stride 8 are exactly four discs rising to the right, never wrapping over a column top |
| Bitboard.FallingIff | connect4_minimax.c:104-106 | on discs within the cells, four set bits at stride 6 are exactly four discs falling to the right, never wrapping under a column bottom |
| Bitboard.CheckWinOnBoard | connect4_minimax.c:98-115 | on discs within the 42 cells, `check_win` holds exactly when four of them stand in one column, row or diagonal of the 7 × 6 board |
| Connect4Search.LegalFacts | connect4_minimax.c:137-139 | a legal position holds 0..42 discs, and it is full exactly when no column is valid |
| Connect4Search.LegalPlay | connect4_minimax.c:129-135 | a move into a valid column reaches a position with one disc more |
| Connect4Search.OpenRoom | connect4_minimax.c:117-120 | a valid column of a legal position is a stack with room on top |
| Connect4Search.WinsOpen | connect4_minimax.c:171 | a column that wins at once passed `is_valid_move` |
| Connect4Search.ProbeCell | connect4_minimax.c:124-125 | on a column with room, `is_winning_move` adds exactly the new cell to the mover's discs |
| Connect4Search.WinningMoveFours | connect4_minimax.c:122-127 | `is_winning_move` holds exactly when the mover's discs plus the new cell hold four set bits in line at one stride (1, 6, 7 or 8) |
| Connect4Search.WinningMoveOnBoard | connect4_minimax.c:122-127 | `is_winning_move` holds exactly when the mover's discs plus the new cell hold four in one column, row or diagonal of the board |
| Connect4Search.WinsOnBoardOpen | connect4_minimax.c:122-127 | on a valid column of a legal position, the discs `is_winning_move` tests pass `check_win` exactly when they hold four in one line of the board |
| Connect4Search.LegalCells | connect4_minimax.c:122-127 | the side to move of a legal position has its discs on the 42 cells |
| Connect4Search.WinningMove | connect4_minimax.c:122-127 | `is_winning_move`: `check_win` of the mover's discs plus the cell the carry lands on; `Connect4Search.WinningMoveFours` and `Connect4Search.WinningMoveOnBoard` state it |
| Connect4Search.MoverAfterMove | connect4_minimax.c:131-133 | after `make_move` the discs of the player who moved are those discs plus the new cell |
| Connect4Search.FirstWin | connect4_minimax.c:170-174 | the immediate-win loop stops at the first valid winning column |
| Connect4Search.WinValue | connect4_minimax.c:172 | the value of an immediate win, `ROWS*COLS+1-n_moves`: the sooner the win, the higher; `Connect4Search.Value` bounds it |
| Connect4Search.Number | connect4_minimax.c:199 | a column is returned as an `int` 0..6, −1 for none |
| Connect4Search.EvaluatePosition | connect4_minimax.c:146-148 | `evaluate_position` scores every position 0 |
| Connect4Search.OrderCovers | connect4_minimax.c:156 | `static_ordering` visits each of the seven columns |
| Connect4Search.Value | connect4_minimax.c:163-192 | the full-width negamax value lies within ±43 (a win's value either way) |
| Connect4Search.Best | connect4_minimax.c:203-224 | `best_move` stays −1 and `best_eval` `INT_MIN` exactly until a valid column is searched |
| Connect4Search.BestIsFirstMax | connect4_minimax.c:217-220 | the pick is a valid column whose value no valid column exceeds, and the first in the order with that value |
| Connect4Search.Neg32 | connect4_minimax.c:185 | C's negation of an `int`: `-x`, except that `-INT_MIN` overflows (undefined behaviour) and is modelled as the two's-complement result common compilers produce, `INT_MIN` |
| Connect4Search.AlphaBetaBounds | connect4_minimax.c:163-192 | every value `negamax` returns lies within ±43 |
| Connect4Search.SearchBounds | connect4_minimax.c:177-191 | the column loop returns a value within ±43 once a valid column exists |
| Connect4Search.AlphaBetaFailSoft | connect4_minimax.c:163-192 | with a non-empty window whose bounds C can negate, `negamax` is fail-soft: the exact value inside the window, a bound on the correct side outside it |
| Connect4Search.AlphaBetaExact | connect4_minimax.c:163-192 | with the widest negatable window, `negamax` returns the full-width value |
| Connect4Search.AlphaBeta | connect4_minimax.c:163-192 | `negamax(board, depth, alpha, beta)` as a function; `Connect4Search.AlphaBetaFailSoft`, `Connect4Search.AlphaBetaExact` and `Connect4Search.AlphaBetaBounds` state it, `Connect4Search.Negamax` is the method it specifies |
| Connect4Search.BestGrows | connect4_minimax.c:186 | later columns only raise `best_eval` |
| Connect4Search.BestStep | connect4_minimax.c:185-186 | a valid column raises `best_eval` to its value when that is larger |
| Connect4Search.SearchFailSoft | connect4_minimax.c:180-191 | the loop invariant of `negamax`: `alpha` is the larger of its start and `best_eval`, and the loop's result is fail-soft with respect to the full-width value |
| Connect4Search.Search | connect4_minimax.c:180-191 | the column loop of `negamax` from one position of the order on; `Connect4Search.SearchFailSoft` states it |
| Connect4Search.Visit | connect4_minimax.c:186-188 | one loop turn after a child's value: `best_eval` and `alpha` rise to it and the loop breaks once `alpha >= beta`; `Connect4Search.StepFailSoft` states it |
| Connect4Search.StepFailSoft | connect4_minimax.c:185-188 | one column keeps that invariant |
| Connect4Search.Negamax | connect4_minimax.c:163-192 | the method reads the board, searches copies, and returns exactly the alpha-beta value |
| Connect4Search.MoveCopy | connect4_minimax.c:183-184 | a fresh copy of the board with the disc played |
| Connect4Search.BestMoveValid | connect4_minimax.c:194-226 | the move is −1 exactly on a full board, and otherwise a valid column |
| Connect4Search.BestMove | connect4_minimax.c:194-226 | what `find_best_move` returns; `Connect4Search.BestMoveValid` and `Connect4Search.FindBestMove` state it |
| Connect4Search.FindBestMove | connect4_minimax.c:194-226 | `find_best_move` (with its first `alpha` at `INT_MIN + 1`) returns the first winning column, else the first column in the order of greatest full-width value |
| Connect4Search.SearchSkip | connect4_minimax.c:180-182 | invalid columns are skipped without effect |
| Connect4Search.FirstChildAsWritten | connect4_minimax.c:204-215 | as written the first child gets the window (`INT_MIN + 1`, `INT_MIN`), which is empty, so that child returns after its first valid reply whatever the later replies are worth |
| TicTacToe.CellAt | tictactoe_minimax.py:34 | row-major position k of the comprehension is a cell of the grid, at 3·row + col = k |
| TicTacToe.CellAtKey | tictactoe_minimax.py:34 | every cell of the grid is reached at its row-major position |
| TicTacToe.AllowedFromSpec | tictactoe_minimax.py:33-34 | the comprehension from position k on lists exactly the empty cells at or after k, strictly in row-major order |
| TicTacToe.AllowedMovesSpec | tictactoe_minimax.py:33-34 | `init_allowed_moves` lists exactly the empty cells, each once, in row-major order |
| TicTacToe.Default | tictactoe_minimax.py:6-11 | a new game has both grids zero and all nine cells allowed, row by row |
| TicTacToe.Make | tictactoe_minimax.py:6-11 | `TicTacToe(board, moves)`: the grids as given with their allowed moves; `TicTacToe.Default` and `TicTacToe.AddSymbol` state what they build with it |
| TicTacToe.AllowedMoves | tictactoe_minimax.py:33-34 | `init_allowed_moves`; `TicTacToe.AllowedMovesSpec` states it |
| TicTacToe.Wrap | tictactoe_minimax.py:21-22 | numpy's index into an axis of 3: −3..−1 count from the end, 0..2 as given, anything else raises |
| TicTacToe.WriteCells | tictactoe_minimax.py:19-22 | writing into the copy changes that one cell and no other |
| TicTacToe.AddSymbol | tictactoe_minimax.py:17-24 | `add_symbol` raises exactly on an index outside −3..2; otherwise the new board holds `num` and the new moves grid `player` at the wrapped cell, every other cell is unchanged, and the allowed moves are recomputed from the new board |
| TicTacToe.Without | tictactoe_minimax.py:34 | the list with one cell removed keeps exactly the other cells |
| TicTacToe.AllowedAfterWrite | tictactoe_minimax.py:17-34 | writing a non-zero number into an empty cell removes just that cell from the list, the rest in order |
| TicTacToe.AddSymbolAllowed | tictactoe_minimax.py:17-24 | a move into an empty cell removes exactly that cell from `allowed_moves` |
| TicTacToe.AlignedIffLine | tictactoe_minimax.py:41-57 | the alignment test is "some row, column or diagonal sums to 15" (the magic-square win) |
| TicTacToe.CheckAlignments | tictactoe_minimax.py:41-57 | `check_alignments` holds exactly when some row, column or diagonal sums to 15 |
| TicTacToe.Aligned | tictactoe_minimax.py:41-57 | the independent reference for `check_alignments`: some row, column or diagonal sums to 15; `TicTacToe.CheckAlignments` proves the loop equal to it |
| TicTacToe.CountFrom | tictactoe_minimax.py:38 | the count of cells from position k equal to x is at most the number of those cells |
| TicTacToe.ScoreFun | tictactoe_minimax.py:37-38 | `score_fun` lies between its base (4, or 5 for player 1) minus 9 and that base |
| TicTacToe.Count | tictactoe_minimax.py:38 | `np.sum(moves == player)`; `TicTacToe.CountFrom`, `TicTacToe.ScoreFun` and `TicTacToe.CountAfterWrite` state it |
| TicTacToe.CountAfterWrite | tictactoe_minimax.py:22-38 | writing y over a cell changes the count of x by the cell's gain or loss of x |
| TicTacToe.ScoreAfterAdd | tictactoe_minimax.py:17-24 | a move by `player` lowers that player's score by one unless the cell already held their mark, and raises the score of a player whose mark it overwrites |
| TicTacToe.IsTerminal | tictactoe_minimax.py:26-27 | as written, `not np.any(board) == 0` reads `not (np.any(board) == 0)`: the state is terminal when any cell is non-zero or a line sums to 15 |
| TicTacToe.ZerosNotAligned | tictactoe_minimax.py:41-57 | an all-zero board has no line summing to 15 |
| TicTacToe.TerminalIffNotRoot | tictactoe_minimax.py:26-30 | as written, `is_terminal` holds exactly on the states where `is_root` fails |
| TicTacToe.IsRoot | tictactoe_minimax.py:29-30 | `is_root`: every cell is 0; `TicTacToe.TerminalIffNotRoot` states it against `is_terminal` |
| TicTacToe.CentreOnly | tictactoe_minimax.py:26-27 | a board holding only a 5 in the centre has a number but no line summing to 15 |
| TicTacToe.TerminalAfterOneMove | tictactoe_minimax.py:26-27 | one move on the empty board already makes `is_terminal` true as written, while no line is complete and cells remain allowed |
| TicTacToe.NoMovesIffFull | tictactoe_minimax.py:33-34 | the allowed moves run out exactly when no cell is empty |
| TicTacToe.IsOver | tictactoe_minimax.py:26-27 | the evident intent: over exactly when no move is left or a line sums to 15 |

## Left out

- Streamlit pages, session wiring and rendering components: they only call into the modelled code.
- TicTacToe.Grid: `TicTacToe()` builds both grids with `np.zeros((3, 3))` (tictactoe_minimax.py:8-9), float64 arrays, and `add_symbol` stores any `num` (tictactoe_minimax.py:21); the model's grids hold integers. The game's rules allow only the numbers 1 to 9 (pages/⭕to_15.py:18), which float64 stores exactly, so sums such as the 15 test agree; non-integer numbers (a line like 7.5 + 7.5 + 0) are not modelled.
- `plot_simulation` in `kuhn_fun.py` and `src/kuhn/kuhn_utils.py`: plotting.
- `train_bot` and `simulate` of `src/kuhn/kuhn_utils.py`: they build solvers from `CfrAlgorithm`/`CfrBot` of a module that is not part of this model (`src/kuhn/cfr_algos.py`), so only their `bot_ne` filter is modelled.
- `main`, `print_board` and `scanf` in `connect4_minimax.c`, and the module-level `print` in `tictactoe_minimax.py`: console I/O.
- `board_mask` in `connect4_minimax.c`: nothing calls it.
- `CFR.compute_u` and `CFRBot.compute_u` of the base classes: placeholders that return an exception object; only the CFR+ and chance-sampling versions are modelled.
- The random source itself: every draw is a parameter, so the model says what happens for each draw, not how often.
- Float rounding: probabilities, regrets and utilities are exact reals. Convergence of the average strategy to an equilibrium is a statistical claim and is not stated.
- `Node.u` and `RootNode.deal`: caches written by `eval` and `deal_cards` and read by nothing in the core; the model returns the values instead of storing them.
- `Node.parent`: the back-pointer to the parent node is never read by the core, and the tree is a datatype without it.
- C `int` arithmetic in the search is unbounded except for negation, written `Neg32` where the operand can be `INT_MIN`: `-INT_MIN` overflows (undefined behaviour in C) and is modelled as the two's-complement result common compilers produce, `INT_MIN`; every other value the search computes lies within ±43 or is one of the window ends.
- InitRowAt: where `init_map("prob")` reads `user_sigma[info_set][a]` for an action the user's row lacks, the source raises KeyError (cfr_algos.py:330); the model writes 0.0 there. The Streamlit page always writes both actions (kuhn_st.py:99-100), so the case only arises for rows built outside it.
- InitRowOf: the same substitution as `InitRowAt`, of which it is the per-information-set form.
- Get: reads a row entry, 0.0 for a missing key; it stands for the dict reads above and is used only where every row has its keys.
- UpdateStep: `update_sigma` on a node whose `r_cum` or `sigma` row is missing raises KeyError in the source; the model leaves the tables unchanged. Never the case on tables that satisfy `Sound`.
- NeStep: `compute_ne` reads the node's `sigma_cum` row at every node, the root and the terminals included (cfr_algos.py:276), and the `sigma` row at the bot's nodes; a missing row raises KeyError in the source, where the model writes nothing for that node. Never the case on tables that satisfy `Sound`.
- UWalk: `compute_u` at a decision node whose `sigma`, `r_cum` or `sigma_cum` row is missing raises KeyError in the source; in its `!Decides` branch the model returns 0 and leaves the tables unchanged. Never the case on tables that satisfy `Sound`.
- NodeUpdate: where the node's `r_cum` or `sigma_cum` row lacks an action of the node, the closing loop of `compute_u` raises KeyError in the source (cfr_algos.py:176-185); the model leaves both tables unchanged. Never the case on tables that satisfy `Sound`.
- Listed: `sample_action` (kuhn_fun.py:106-107, cfr_algos.py:390-391) takes the row's actions in the dict's own key order; the model takes them in the node's action order and drops keys the node lacks, where a foreign key would make `play` raise. Every row the program builds has exactly the node's actions in that order, so the two agree there.
- Chomp.Negamax: proved to return the position's value and best bite only while every row and column index is a single digit, because with two-digit indices `str(state)` stops naming positions uniquely and a memo hit can return another position's result (`Chomp.KeyCollision`).

## Findings

| source | as written | input that shows it | evidently intended | confidence | as-written member | corrected member |
|---|---|---|---|---|---|---|
| connect4_minimax.c:204-215 | `find_best_move` starts with `alpha = INT_MIN` and calls `negamax` with `-alpha`, which overflows (undefined behaviour); modelled as the two's-complement result common compilers produce, `INT_MIN`, so the first child gets the empty window (`INT_MIN + 1`, `INT_MIN`) and stops after its first valid reply | the empty board searched to depth 3: the first child (a disc in column 3) has no winning reply, so its value is that of its first reply alone. This input shows only the cut: every value within that depth is 0, so the returned column is 3 either way, and no position where the returned column changes is given | search the first child with the full window (`alpha = -INT_MAX`), so every child's value is exact | not executed | Connect4Search.FirstChildAsWritten | Connect4Search.FindBestMove |
| tictactoe_minimax.py:27 | `not np.any(self.board) == 0` parses as `not (np.any(self.board) == 0)`, so any non-zero cell makes the state terminal | the empty board after `add_symbol(5, 1, 1, 1)`: no line sums to 15 and eight cells are free, yet `is_terminal` is true | terminal when no cell is free or a line sums to 15 | not executed | TicTacToe.TerminalAfterOneMove | TicTacToe.IsOver |
| connect_4_minimax.py:84 | `is_terminal` calls `check_alignments(4, 1)` and `check_alignments(4, 2)`, but the method takes only `player`, so every call raises TypeError | any state, e.g. the empty 6 × 7 board | terminal when player 1 or player 2 has four in a row or the board is full | not executed | Connect4.IsTerminalAsWritten | Connect4.IsTerminal |
