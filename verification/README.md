# icom_abm household allocation, in Dafny

A model of the household-to-zone allocation core of icom_abm, an agent-based
model of urban growth built on pynsim. Zones are census block groups. Agents
are representative households, each standing for `no_hhs_per_agent`
households of `hh_size` people. The state of a simulation is one immutable
`Landscape`, holding:

- the zones, keyed by GEOID, in node order;
- the registry of household agents, keyed by name;
- the two queues `unassigned_hhs` (new households) and `relocating_hhs`
  (households that want to move);
- the list of free units `available_units_list`;
- the total population;
- the rows of the housing table `housing_bg_df`, keyed by GEOID.

Each engine is a pure function from one landscape to the next. An engine that
can raise returns a `Result`, whose error names the Python exception. The
random draws are parameters: `random.sample` becomes a sampler, or a list of
sampled positions with their distinctness and range as preconditions, and
`random.choice` becomes a chooser.

Modules, in the order the simulation uses them:

- `Results`, `PyOps`, `Dicts`, `Ranking`, `Sampling`: Python semantics the
  engines rely on.
  - Results and errors.
  - `round` (half to even), `//`, `str`.
  - Insertion-ordered dictionaries.
  - `sorted`, both the tuple sort and the stable `reverse=True` sort with a key.
  - `random.sample` as positions.
- `Records`: the zone (`BlockGroup`), the household (`HHAgent`), the
  landscape, `ABMLandscape.setup` and `BlockGroup.setup`.
- `Simulator`: `set_timestep_information` and
  `convert_initial_population_to_agents`.
- `Creation`: `NewAgentCreation.run`.
- `Relocation`: `ExistingAgentReloSampler.run` and `ExistingAgentLocation.run`.
- `OutMigration`: `agent_out_migration.run`.
- `Inventory`: `HousingInventory.run` and `run_old`.
- `Utilities` and `NewLocation`: `NewAgentLocation.run`, where each waiting
  household scores its own sample of the unit list.
- `Legacy`: `AgentLocation.run` and `NewAgentLocation.run_old_version`, which
  place new households directly and move a tenth of all households.
- `Proposals`, `Acceptance`, `Admission`, `Market`, `MarketFacts`: the
  multi-round `HousingMarket.run`.
  - In round `r` every queued household proposes the zone it ranks `r`-th.
  - A zone with room for all its proposers admits them all.
  - Any other zone admits its `available_units` best proposers, by a stable
    sort on utility.
- `MarketAsWritten`: the five places where the market's code does not do what
  it evidently means (see Findings). `Proposals`, `Market` and `MarketFacts`
  model the market with all five corrected.
- `Feedback`: `BuildingDevelopment.run` and `HousingPricing.run`.
- `Sweep` and `Scenarios`: `determine_zoning`, `Zoning.run` and
  `FloodHazard.run`.

The market follows the code in several respects that may look surprising:

- It never writes `available_units`, `occupied_units` or an agent's
  `location`.
  - Capacity is not used up across rounds.
  - A household that moves keeps the location of the zone it left.
- The relocation sampler queues households without releasing their units. The
  code's own comment says it should release them, but the model follows the
  code.

## Model

| member | source | states |
|---|---|---|
| Records.NewBlockGroup | model_classes/landscape.py:41-68 | A new zone starts with population equal to its census count, no residents, no units, no flood risk, distance or price, and zoning allowed |
| Records.NewHHAgent | model_classes/urban_agents.py:4-10 | The household record stores exactly the location, aggregation size, household size and year it is given, and has no scores yet |
| Records.DefaultAgent | model_classes/urban_agents.py:4 | A default household stands for 400 people, has no home and arrived in 2018 |
| Records.AddResident | model_engines/agent_location.py:20-22 | Registering a household in a zone sets its record, adds it to that zone's members once and changes no other zone and nothing else |
| Records.AddResidentConsistent | model_engines/agent_location.py:20-22 | Registering a new household in the zone its location names keeps locations and memberships in agreement, and adds one resident to that zone |
| Records.AddResidentTotal | model_engines/agent_location.py:20-22 | Registering a new household adds exactly one membership in all |
| Records.MoveResidentConsistent | model_engines/agent_location.py:30-34 | Deleting a household from its old zone, adding it to the new one and updating its location keeps locations and memberships in agreement |
| Records.MoveResidentPlaces | model_engines/agent_location.py:30-34 | After a move the household lives in the new zone only, and no other household changes |
| Records.MoveResidentTotal | model_engines/agent_location.py:30-34 | A move keeps the total number of memberships |
| Records.LandscapeSetup | model_classes/landscape.py:9-15 | Each zone's population becomes the people its residents stand for, the total population becomes the sum of the zone populations over the nodes, and nothing else changes |
| Records.SetupTotal | model_classes/landscape.py:10-15 | The total accumulated household by household equals the sum of the zones' new populations |
| Records.EmptyZoneHasNoPopulation | model_classes/landscape.py:12 | A zone nobody lives in has population 0 after setup, whatever its census count |
| Records.SetupIdempotent | model_classes/landscape.py:9-15 | Running setup twice gives the same landscape as running it once |
| Records.BlockGroupSetup | model_classes/landscape.py:70-71 | A zone without area raises ZeroDivisionError; otherwise its density times its area is its population, and nothing else changes |
| Simulator.TimestepYears | model_classes/simulator.py:23-29 | `no_of_years + 1` consecutive years starting at the start year, or just the start year when the count is negative; fails with a year-format error exactly when the start year is outside 1000..9999 or the last year passes 9999, naming the first rejected year |
| Simulator.StrptimeYearRange | model_classes/simulator.py:25-28 | `strptime(str(year), '%Y')` accepts a year exactly when it lies between 1000 and 9999 |
| PyOps.NatToStringLength | model_classes/simulator.py:25-28 | `str(n)` has at most `k` digits exactly when `n < 10 ** k` |
| PyOps.NatToStringFour | model_classes/simulator.py:25-28 | `str(n)` has four digits exactly for 1000..9999 |
| Simulator.InitialAgentsRoundsHalfUp | model_classes/simulator.py:62 | With 100 households per agent, a zone gets its census population divided by 100, rounded half up |
| Simulator.InitialNameInjective | model_classes/simulator.py:64 | Different counts give different initial names |
| Simulator.Plan | model_classes/simulator.py:60-69 | The nested loop makes one household per quota unit, named by consecutive counts, each in a listed zone |
| Simulator.PlanZoneCount | model_classes/simulator.py:61-63 | Each listed zone is planned exactly its quota of households, and any other zone none |
| Simulator.PlanNamesDistinct | model_classes/simulator.py:60-69 | The planned names are pairwise distinct |
| Simulator.Register | model_classes/simulator.py:63-69 | After registration the registry holds exactly the old households and the planned names; only agents and memberships change |
| Simulator.RegisterConsistent | model_classes/simulator.py:65-67 | Registering under fresh, distinct names keeps locations and memberships in agreement |
| Simulator.RegisterMembers | model_classes/simulator.py:65-67 | Each zone gains as many residents as are planned for it |
| Simulator.RegisterAgents | model_classes/simulator.py:65-66 | Old households are untouched; every new one is located and has the given size and year |
| Simulator.ConvertInitialPopulation | model_classes/simulator.py:58-70 | The conversion fails with ZeroDivisionError exactly when the aggregation size is 0 and there is a zone; otherwise only agents and memberships change |
| Simulator.NameRangeCard | model_classes/simulator.py:64 | The names counted from `lo` up to `hi` are `hi - lo` distinct names |
| Simulator.ConvertInitialPopulationNames | model_classes/simulator.py:60-69 | Starting from no agents, the agents made are exactly `hh_agent_initial_1` up to one below the logged count |
| Simulator.ConvertInitialPopulationCount | model_classes/simulator.py:61-70 | The logged count is one more than the number of agents made, and that number is the sum of the zone quotas |
| Simulator.ConvertInitialPopulationConsistent | model_classes/simulator.py:61-69 | The converted landscape is consistent, every agent lives in a zone and arrived in the start year, and neither queue changes |
| Simulator.ConvertInitialPopulationMembers | model_classes/simulator.py:61-67 | Each zone of an empty landscape ends with its quota of residents |
| Creation.NewAgentCountRounds | model_engines/agent_creation.py:36-37 | With an even, positive aggregation size, the count is the new population in agents rounded to the nearest integer, halves up, and a decline makes none |
| Creation.CreatedNames | model_engines/agent_creation.py:38-40 | The `i`-th name is `hh_agent_<year>_<i+1>` |
| Creation.IntToStringInjective | model_engines/agent_creation.py:40 | Different years have different texts, negative ones included |
| Creation.CreatedNameInjective | model_engines/agent_creation.py:40 | A created name determines its year and its count |
| Creation.CreatedNotInitial | model_engines/agent_creation.py:40 | A created name is never an initial agent's name |
| Creation.CreatedNamesDistinct | model_engines/agent_creation.py:38-45 | The names of one year's creation are pairwise distinct |
| Creation.AddUnassigned | model_engines/agent_creation.py:41-44 | The names are registered as the given household and queued as unassigned; all older households keep their records |
| Creation.AddUnassignedFresh | model_engines/agent_creation.py:44 | New, distinct names join the end of the queue, and the registry grows by their number |
| Creation.NewAgentCreation | model_engines/agent_creation.py:30-48 | Mode `'perc'` fails with ZeroDivisionError exactly on a zero aggregation size; any other mode changes nothing; only the registry and the unassigned queue change |
| Creation.NewAgentCreationAppends | model_engines/agent_creation.py:38-45 | The created households are appended to the unassigned queue in count order, and the registry grows by their number |
| Creation.NewAgentCreationRegisters | model_engines/agent_creation.py:41-43 | Each created household has no home and the configured sizes and year; earlier households are unchanged |
| Creation.NewAgentCreationWellFormed | model_engines/agent_creation.py:41-44 | Creation keeps memberships known, locations consistent and the queues well formed |
| Sampling.SelectDistinct | model_engines/existing_agent_relocation.py:35 | A sample of distinct positions from distinct names holds distinct names |
| Utilities.PutScore | model_engines/new_agent_location.py:36 | Scoring a zone records that score, replaces the zone's old one and keeps every other score |
| Utilities.Evaluate | model_engines/new_agent_location.py:35-36 | After scoring a sample, each sampled zone has its score and every unsampled zone keeps its old one |
| Utilities.EvaluateScoredZones | model_engines/existing_agent_relocation.py:71-72 | The scored zones afterwards are the old ones plus the sampled ones |
| Relocation.MoverCountInRange | model_engines/existing_agent_relocation.py:33-34 | A share between 0 and 1 gives between none and all residents, the nearest whole number to that share with ties to even |
| Relocation.ZoneMovers | model_engines/existing_agent_relocation.py:33-35 | The draw fails exactly when the count is negative or above the residents; otherwise it holds that many distinct residents of the zone |
| Relocation.AllMovers | model_engines/existing_agent_relocation.py:32-37 | Every mover is a resident of a listed zone and has a record in the registry; a failure is either the sample-size error or a `KeyError` naming an unregistered household |
| Relocation.AllMoversOk | model_engines/existing_agent_relocation.py:32-37 | The movers are found exactly when every zone's sample can be drawn and names registered households only |
| Relocation.FirstUnregistered | model_engines/existing_agent_relocation.py:36-37 | The first sampled mover the registry has no record for, and none exactly when all are registered |
| Relocation.ExistingAgentReloSampler | model_engines/existing_agent_relocation.py:25-38 | Only the relocation queue changes: it keeps its households, gains registered residents of zones only, and stays free of duplicates |
| Relocation.AllMoversFacts | model_engines/existing_agent_relocation.py:32-37 | Each zone's movers are its share of residents, and all of them are queued |
| Relocation.AllMoversSucceed | model_engines/existing_agent_relocation.py:34-37 | With a share between 0 and 1 and every resident registered, the sampler never fails |
| Relocation.ReloSamplerFacts | model_engines/existing_agent_relocation.py:32-38 | Each zone queues its share of distinct residents with no duplicates, and no membership, agent or unit count changes |
| Relocation.ScoreQueue | model_engines/existing_agent_relocation.py:70-72 | Exactly the queued, registered households score the sample; all others are unchanged |
| Relocation.ExistingAgentLocation | model_engines/existing_agent_relocation.py:62-72 | The engine fails exactly when the sample size is negative or exceeds the unit list; otherwise only scores change |
| Relocation.ExistingAgentLocationFacts | model_engines/existing_agent_relocation.py:67-72 | The shared sample has `bg_sample_size` zones, none more often than it has free units; each relocating household scores all of them and keeps its other scores; no one else changes |
| NewLocation.AgentSampleFacts | model_engines/new_agent_location.py:34 | A household's own draw has exactly `bg_sample_size` entries, none more often than the list holds it |
| NewLocation.NewAgentLocation | model_engines/new_agent_location.py:27-36 | The engine fails exactly when a household waits and the sample size is negative or exceeds the list; otherwise only scores change |
| NewLocation.NewAgentLocationFacts | model_engines/new_agent_location.py:33-36 | Each waiting household scores every zone of its own sample and keeps its other scores; relocating and placed households are unchanged |
| Legacy.AllowedAmong | model_engines/new_agent_location.py:46-49 | The listed zones kept are exactly those whose zoning is allowed |
| Legacy.AllowedZones | model_engines/new_agent_location.py:46-49 | `bg_dev_allowed` holds exactly the zones whose zoning is allowed |
| Legacy.Place | model_engines/agent_location.py:17-24 | Placement fails exactly when there are households to place and no zone to choose from |
| Legacy.PlaceWellFormed | model_engines/agent_location.py:17-24 | Placing new, distinct households keeps the landscape consistent and adds one membership per household |
| Legacy.PlaceAgents | model_engines/agent_location.py:18-23 | Each placed household lives in a zone of the pool with the given record; older households, the queues and everything but memberships are unchanged |
| Legacy.PlaceCount | model_engines/agent_location.py:17-23 | The registry grows by the number of new households |
| Legacy.MoveAll | model_engines/agent_location.py:29-34 | Moves never add or remove a zone |
| Legacy.MoveAllWellFormed | model_engines/agent_location.py:29-34 | Moves keep the landscape consistent and the number of memberships |
| Legacy.MoveAllAgents | model_engines/agent_location.py:29-34 | Each mover lives in a zone of the pool afterwards with its other fields unchanged; no one else, and no queue, changes |
| Legacy.MoveAllSucceeds | model_engines/agent_location.py:30-32 | In a consistent landscape, moving households that each live in a zone never fails |
| Legacy.LegacyLocation | model_engines/agent_location.py:12-34 | A zero aggregation size raises ZeroDivisionError |
| Legacy.AgentLocation | model_engines/agent_location.py:12-34 | `AgentLocation.run` raises ZeroDivisionError on a zero aggregation size |
| Legacy.NewAgentLocationOld | model_engines/new_agent_location.py:41-72 | `run_old_version` raises ZeroDivisionError on a zero aggregation size |
| Legacy.LegacyStep | model_engines/agent_location.py:14-28 | The households picked to move are a tenth, rounded down, of all households including the new ones; they are distinct and registered |
| Legacy.LegacyLocationWellFormed | model_engines/agent_location.py:17-34 | From a consistent landscape where everyone has a home, the step succeeds, stays consistent and adds one membership per new household |
| Legacy.LegacyLocationDestinations | model_engines/agent_location.py:18-34 | Every household created or changed lives in a zone of the pool; the queues and the unit list are untouched |
| Legacy.PlaceConsistent | model_engines/new_agent_location.py:55-61 | Placement keeps memberships known and consistent |
| Legacy.NewAgentLocationOldAllowed | model_engines/new_agent_location.py:46-72 | `run_old_version` places or moves households only into zones whose zoning is allowed |
| Inventory.HousingInventory | model_engines/housing_inventory.py:26-34 | Only the unit list changes; it is extended by the free units of the nodes, in node order |
| Inventory.UnitsOfCount | model_engines/housing_inventory.py:29-33 | A listed zone appears once per free unit, and any other zone never |
| Inventory.UnitsOfLength | model_engines/housing_inventory.py:29-33 | The list grows by the sum of the free units over the nodes |
| Inventory.UnitsOfNodes | model_engines/housing_inventory.py:32-33 | Every entry names a node |
| Inventory.UnitsOfOrder | model_engines/housing_inventory.py:29-33 | Entries follow node order |
| Inventory.InNodeOrderContiguous | model_engines/housing_inventory.py:29-33 | Each zone's copies are contiguous |
| Inventory.RepeatCount | model_engines/housing_inventory.py:32-33 | `n` copies of a name hold it `n` times and nothing else |
| Inventory.InventoryOld | model_engines/housing_inventory.py:36-45 | `run_old` fails with ZeroDivisionError exactly when the unit size is 0 and there is a zone |
| Inventory.InventoryOldZones | model_engines/housing_inventory.py:39-41 | Each zone gets 10,000 residences and the rounded unit count, 100 for the default size; nothing else about it changes |
| Inventory.InventoryOldPrefix | model_engines/housing_inventory.py:42-43 | The old list stays a prefix, followed by the reset zones' units in node order |
| Inventory.InventoryOldList | model_engines/housing_inventory.py:42-43 | Each zone is appended once per unit it now has |
| Sweep.ForEachNode | model_engines/flood_hazard.py:9-10 | A sweep over the nodes never adds or removes a zone |
| Sweep.ForEachNodeAt | model_engines/flood_hazard.py:9-10 | Over distinct nodes each listed zone is updated exactly once, and every other zone is left alone |
| Sweep.ForEachNodeIdempotent | model_engines/flood_hazard.py:9-10 | An update that settles after one application makes the whole sweep settle after one run |
| Feedback.NewUnitsFacts | model_engines/building_development.py:9-10 | A zone without excess demand gets no units; an oversubscribed one gets 5% of its occupied units, rounded half to even, between none and all of them |
| Feedback.ConstructionTable | model_engines/building_development.py:9-10 | Every row gets its new-unit count and keeps all other columns |
| Feedback.BuildingDevelopment | model_engines/building_development.py:8-15 | The step fails exactly when a node has no row in the table; otherwise only zones and table change |
| Feedback.BuildingDevelopmentFacts | model_engines/building_development.py:12-15 | A zone gains exactly its row's new units as free units, so occupied plus free grows by that amount; free units never fall when the row's occupied units are not negative; nothing else changes |
| Feedback.BuildingDevelopmentTable | model_engines/building_development.py:9-10 | Every row, listed or not, records its new units and is otherwise unchanged |
| Feedback.Reprice | model_engines/housing_pricing.py:12-18 | Repricing changes only the price |
| Feedback.RepriceRules | model_engines/housing_pricing.py:12-18 | An oversubscribed zone's price rises by the rate; from index 5 on, a zone whose history never flagged excess demand falls by the rate; both can apply; before index 5 a zone without excess demand keeps its price |
| Feedback.RepriceKeepsSign | model_engines/housing_pricing.py:12-18 | With a rate between 0 and 1 a non-negative price stays non-negative |
| Feedback.HousingPricing | model_engines/housing_pricing.py:9-19 | Only the zones and the table change; no zone or row appears or disappears |
| Feedback.HousingPricingZone | model_engines/housing_pricing.py:11-18 | Each zone is repriced exactly once, and only its price changes |
| Feedback.HousingPricingTable | model_engines/housing_pricing.py:12-19 | A zone's row mirrors the zone's final price when a rule fired; other rows, and all other columns, are unchanged |
| Scenarios.DetermineZoning | model_classes/institutional_agents.py:10-13 | Only the zones change, and no zone appears or disappears |
| Scenarios.DetermineZoningFacts | model_classes/institutional_agents.py:11-13 | A member zone above 0.03 is closed; any other zone keeps its zoning, so none is reopened; only the zoning field changes |
| Scenarios.DetermineZoningIdempotent | model_classes/institutional_agents.py:11-13 | A second run changes nothing |
| Scenarios.ZoningRun | model_engines/zoning.py:7-9 | Only the zones change |
| Scenarios.ZoningRunFacts | model_engines/zoning.py:8-9 | Outside 2020 nothing changes; in 2020 it is the zoning decision; a second run changes nothing |
| Scenarios.FloodHazard | model_engines/flood_hazard.py:7-12 | Only zones change |
| Scenarios.FloodHazardFacts | model_engines/flood_hazard.py:8-10 | In 2020 every zone's risk becomes 100; in other years nothing changes; only the risk field ever changes |
| Scenarios.FloodHazardIdempotent | model_engines/flood_hazard.py:8-10 | Running the step twice in a year is running it once |
| Ranking.SortBest | model_engines/housing_market.py:33 | The best-first order is a permutation of the scores, sorted by utility and then by zone name |
| Ranking.RankedChoice | model_engines/housing_market.py:34 | `sorted(...)[-1-r]` exists exactly when more than `r` zones are scored |
| Ranking.RankedChoiceIsRank | model_engines/housing_market.py:33-34 | The round-`r` choice is a scored zone with exactly `r` scored zones preferred to it |
| Ranking.RankUnique | model_engines/housing_market.py:33-34 | No two scored zones have the same number of preferred zones, so the rank determines the choice |
| Ranking.StrictlyMorePreferred | model_engines/housing_market.py:33 | A worse candidate has strictly more candidates preferred to it |
| Ranking.BetterTotal | model_engines/housing_market.py:33 | Of two candidates for different zones one is better: utility first, then the larger zone name |
| Ranking.BetterTransitive | model_engines/housing_market.py:33 | The tuple order is transitive |
| Ranking.StableSortDesc | model_engines/housing_market.py:65 | The sort is a permutation |
| Ranking.StableSortSorted | model_engines/housing_market.py:65 | The sort orders by descending key |
| Ranking.StableSortWithKey | model_engines/housing_market.py:65 | The sort is stable: elements with equal keys keep their order |
| Acceptance.SlicePrefix | model_engines/housing_market.py:65 | `s[:k]` is a prefix of `s`, of the length Python gives for any `k` |
| Acceptance.Accepted | model_engines/housing_market.py:52-65 | A zone accepts only proposers that proposed to it |
| Acceptance.AcceptAllWhenRoom | model_engines/housing_market.py:52-53 | A zone with room for every proposer accepts them all, in proposal order |
| Acceptance.AcceptedCount | model_engines/housing_market.py:64-65 | A zone without room fills exactly its free units; a negative count drops that many from the end |
| Acceptance.AcceptedBest | model_engines/housing_market.py:65 | Every accepted proposer has at least the utility of every proposer turned away |
| Acceptance.AcceptedTies | model_engines/housing_market.py:65 | Among equal utilities the first proposers are accepted |
| Acceptance.AcceptedDistinct | model_engines/housing_market.py:65-66 | Proposers that proposed once each are accepted once each |
| Proposals.FirstUnable | model_engines/housing_market.py:32-34 | Nothing is found exactly when every household can propose; otherwise the result is a queued household that cannot |
| Proposals.ProposalOf | model_engines/housing_market.py:33-35 | A proposal is made by its household |
| Proposals.ProposalsOf | model_engines/housing_market.py:32-40 | Households that can all propose give one proposal each, in queue order, each its own `r`-th choice |
| Proposals.Propose | model_engines/housing_market.py:32-40 | Proposing succeeds exactly when every household has more than `r` scores; the proposals follow the queue, one per household |
| Proposals.ProposeCons | model_engines/housing_market.py:32-40 | Proposing for a queue is the first household's proposal followed by the rest's; the first household that cannot propose decides the error |
| Proposals.ProposeRank | model_engines/housing_market.py:33-35 | Each proposal carries one of the household's own scores, with exactly `r` scores preferred to it |
| Proposals.Proposers | model_engines/housing_market.py:32-48 | The proposers are the new households, then the relocating ones not already recorded |
| Proposals.RoundProposals | model_engines/housing_market.py:31-48 | A round proposes exactly when every queued household can; the proposers are listed once each, each with its own rank-`r` proposal |
| Proposals.DemandZones | model_engines/housing_market.py:36-40 | The keys of `bg_demand` are exactly the proposed zones, each once |
| Proposals.ProposersFor | model_engines/housing_market.py:36-40 | `bg_demand[zone]` holds exactly the proposals for that zone |
| Proposals.ProposerOfOneZone | model_engines/housing_market.py:36-48 | A household is a proposer for the zone it proposed, and for no other |
| Proposals.ProposersForDistinct | model_engines/housing_market.py:36-40 | A zone's proposers propose once each |
| Admission.Admit | model_engines/housing_market.py:54-63 | Admission never adds or removes a zone; an unregistered household fails with `KeyError` in either queue |
| Admission.AdmitByQueue | model_engines/housing_market.py:54-63 | A registered new household is always admitted: it joins the zone and leaves the unassigned queue; a registered household in neither queue fails |
| Admission.AdmitAll | model_engines/housing_market.py:53-63 | Admitting a list of matches never adds or removes a zone |
| Admission.AdmitAllAppend | model_engines/housing_market.py:50-76 | Admitting two lists in a row is admitting their concatenation |
| Admission.AdmitStep | model_engines/housing_market.py:54-63 | A ready household leaves both queues and joins the accepting zone; a relocating one leaves the zone it lived in |
| Admission.AdmitMember | model_engines/housing_market.py:55-61 | One admission changes a zone's membership only by the admitted household |
| Admission.AdmitAllQueues | model_engines/housing_market.py:53-63 | Admissible matches all succeed, and exactly the matched households leave the queues, the others keeping their order |
| Admission.AdmitAllMember | model_engines/housing_market.py:53-76 | A household is a member of a zone afterwards exactly when it was one and did not move out, or it was matched there |
| Market.ZoneAccepted | model_engines/housing_market.py:51-65 | A zone accepts only its own proposers |
| Market.ZoneMatches | model_engines/housing_market.py:53-66 | A zone's matches are its accepted proposers, all matched to it |
| Market.ClearZones | model_engines/housing_market.py:50-76 | Clearing never adds or removes a zone |
| Market.Matches | model_engines/housing_market.py:50-76 | Every match is to a cleared zone |
| Market.ClearZonesFlat | model_engines/housing_market.py:50-76 | Clearing the zones one by one admits all of the round's matches in order |
| Market.Round | model_engines/housing_market.py:31-76 | A round never adds or removes a zone |
| Market.Rounds | model_engines/housing_market.py:28-30 | The rounds never add or remove a zone |
| Market.HousingMarket | model_engines/housing_market.py:25-76 | Only memberships and the two queues change; no zone appears or disappears, and units and locations are untouched |
| Market.WriteBack | model_engines/housing_market.py:55-61 | Writing memberships back changes nothing else about a zone |
| Market.MarketIdle | model_engines/housing_market.py:28-30 | With no round to run, or nobody queued, the market changes nothing |
| Market.RoundsSnoc | model_engines/housing_market.py:28-30 | Allowing one more round runs the same rounds and then at most that one, and none once the queues are empty |
| MarketFacts.ProposedOnce | model_engines/housing_market.py:32-48 | A household proposes to one zone per round |
| MarketFacts.MatchesProposed | model_engines/housing_market.py:50-66 | Every match pairs a household with the zone it proposed |
| MarketFacts.MatchesDistinct | model_engines/housing_market.py:50-76 | No household is matched twice in a round |
| MarketFacts.MatchesMember | model_engines/housing_market.py:50-66 | A household is matched to a zone exactly when that zone is cleared and accepts it |
| MarketFacts.ProposalZonesKnown | model_engines/housing_market.py:33-35 | Proposals are for zones of the landscape |
| MarketFacts.RoundProposes | model_engines/housing_market.py:32-48 | In a round every queued household proposes once, and only for zones of the landscape |
| MarketFacts.RoundAdmissible | model_engines/housing_market.py:50-76 | A round's matches are admissible |
| MarketFacts.RoundQueues | model_engines/housing_market.py:50-76 | A round succeeds, and exactly its matched households leave the queues |
| MarketFacts.RoundMember | model_engines/housing_market.py:54-76 | After a round a household belongs to a zone exactly when it stayed there or the zone accepted it |
| MarketFacts.StaysLocated | model_engines/housing_market.py:58-63 | A relocating household still queued after a round is still a member where its location says |
| MarketFacts.RoundKeeps | model_engines/housing_market.py:28-76 | A round keeps the queues fit for the remaining rounds |
| MarketFacts.RoundsSucceed | model_engines/housing_market.py:28-76 | From fit queues, all the remaining rounds succeed |
| MarketFacts.HousingMarketSucceeds | model_engines/housing_market.py:25-76 | The market runs to completion on a consistent landscape whose queued households have scored enough zones |
| MarketAsWritten.HhUtilities | model_engines/housing_market.py:32-42 | `hh.hh_utilities` fails with AttributeError exactly when the loop variable is a name |
| MarketAsWritten.Keys | model_engines/housing_market.py:32-41 | As written, the proposal loops bind each queued household's name, in queue order |
| MarketAsWritten.Values | model_engines/housing_market.py:32-41 | Corrected, the loops bind each queued household's record, in queue order |
| MarketAsWritten.ProposeItems | model_engines/housing_market.py:32-40 | A proposal loop yields no proposals on no items, fails with AttributeError when its first item is a name, and otherwise proposes once per item, for that item's household |
| MarketAsWritten.RoundProposalsByKey | model_engines/housing_market.py:31-48 | As written, a round's proposals succeed exactly when both queues are empty; otherwise they fail with AttributeError on the first new household, or on the first relocating one when nobody is new |
| MarketAsWritten.ProposeItemsCons | model_engines/housing_market.py:32-40 | Corrected, the loop over the records takes its first record as `Propose` takes the first household, failing with IndexError when it has `r` or fewer scores |
| MarketAsWritten.ProposeValues | model_engines/housing_market.py:32-40 | Corrected, a loop over the records proposes exactly as `Proposals.Propose` does, with the same results and the same errors |
| MarketAsWritten.KeyIterationExample | model_engines/housing_market.py:32-33 | Concrete input: a single new household fails on the attribute read as written; corrected, it proposes for its zone |
| MarketAsWritten.ProposalsAsWritten | model_engines/housing_market.py:32-48 | Once the loops read records, and otherwise as written, a successful round has one proposal per queue entry, and passes a utility on to the next round. A household waiting in both queues, which no engine produces, is counted once per queue, where `bg_demand` would keep one key |
| MarketAsWritten.NewProposalsAsWritten | model_engines/housing_market.py:32-40 | Once the loops read records, and otherwise as written, new households propose with their own utility, and the last one's utility is passed on |
| MarketAsWritten.StaleUtility | model_engines/housing_market.py:41-48 | Once the loops read records, and otherwise as written, a relocating household proposes its own rank-`r` zone with the utility passed on, not its own |
| MarketAsWritten.StaleUtilityExample | model_engines/housing_market.py:35-48 | Concrete input: `B` proposes with `A`'s utility, and with nobody new the loop reads an unassigned variable |
| MarketAsWritten.OwnUtilityExample | model_engines/housing_market.py:41-48 | Corrected, `B` proposes with its own utility |
| MarketAsWritten.OwnUtilityFirstExample | model_engines/housing_market.py:41-48 | Corrected, a first round with nobody new proposes too |
| MarketAsWritten.ProposalsOwnUtility | model_engines/housing_market.py:41-48 | Corrected, every proposal carries its household's own utility for its rank-`r` zone |
| MarketAsWritten.AdmitAsWritten | model_engines/housing_market.py:54-63 | As written, only a household arriving this year and waiting as unassigned can be admitted; any other household fails on an attribute read or a deletion |
| MarketAsWritten.RelocationAttributeExample | model_engines/housing_market.py:58-63 | Concrete input: a relocating household fails on `hh_match.location`; corrected, it moves |
| MarketAsWritten.YearBranchExample | model_engines/housing_market.py:54-57 | Concrete input: a relocating household arrived this year takes the new-household branch and fails; corrected, it moves |
| MarketAsWritten.AdmitAllAsWritten | model_engines/housing_market.py:66-76 | As written, admission never adds or removes a zone |
| MarketAsWritten.ClearZoneAsWritten | model_engines/housing_market.py:52-76 | As written, a zone with room for all of its proposers always fails |
| MarketAsWritten.IterationDeletionExample | model_engines/housing_market.py:53-57 | Concrete input: deleting during iteration fails; corrected, the zone admits its household |
| OutMigration.MigrantCountFacts | model_engines/agent_out_migration.py:36-37 | The count is never negative, a negative rate counts as its absolute value, and a rate of size at most 1 selects at most every resident |
| OutMigration.MigrantsFacts | model_engines/agent_out_migration.py:36-38 | A zone's migrants are `round(abs(rate) * n)` of its members, drawn without repeats |
| OutMigration.Leave | model_engines/agent_out_migration.py:40-44 | A departure never adds or removes a zone |
| OutMigration.LeaveAll | model_engines/agent_out_migration.py:39-44 | Departures never add or remove a zone |
| OutMigration.OutMigrateZones | model_engines/agent_out_migration.py:35-44 | Out-migration never adds or removes a zone |
| OutMigration.LeaveStep | model_engines/agent_out_migration.py:40-44 | One departure removes the resident from its zone, frees a unit there and marks it out-migrated |
| OutMigration.LeaveConsistent | model_engines/agent_out_migration.py:40-44 | One departure keeps the landscape consistent |
| OutMigration.LeaveAllConserves | model_engines/agent_out_migration.py:42-43 | Occupied plus available units of every zone are conserved |
| OutMigration.OutMigrationConserves | model_engines/agent_out_migration.py:35-43 | The whole engine conserves every zone's occupied plus available units |
| OutMigration.LeaveAllFrame | model_engines/agent_out_migration.py:39-44 | Departures change no queue, unit list, table or total, and register or remove no household |
| OutMigration.OutMigrationFrame | model_engines/agent_out_migration.py:35-44 | The engine changes no queue, unit list, table or total, and registers or removes no household |
| OutMigration.LeaveAllZone | model_engines/agent_out_migration.py:39-43 | Distinct residents of one zone leaving vacate exactly them from it and change no other zone |
| OutMigration.LeaveAllConsistent | model_engines/agent_out_migration.py:39-44 | Departures keep the landscape consistent |
| OutMigration.LeaveAllAgents | model_engines/agent_out_migration.py:44 | Exactly the departing households are marked out-migrated |
| OutMigration.OutMigrateZonesVacate | model_engines/agent_out_migration.py:35-43 | Each zone loses exactly the residents its own draw selected, and the landscape stays consistent |
| OutMigration.OutMigrateZonesAgents | model_engines/agent_out_migration.py:35-44 | A drawn resident is marked out-migrated; every household no zone drew is unchanged |
| OutMigration.AgentOutMigrationFacts | model_engines/agent_out_migration.py:27-45 | Every zone gives up exactly its drawn residents, one unit moving from occupied to available per departure; the queues and the unit list are untouched |
| OutMigration.AgentOutMigrationAgents | model_engines/agent_out_migration.py:38-44 | Exactly the drawn residents are marked out-migrated |
| PyOps.RoundHalfEven | model_engines/existing_agent_relocation.py:34 | `round(x)` is the nearest integer, ties to the even one |
| PyOps.NearestHalfEvenUnique | model_engines/existing_agent_relocation.py:34 | At most one integer satisfies that rule |
| PyOps.FloorDivIsFloor | model_classes/simulator.py:62 | `a // b` is the floor of the quotient for either sign of `b` |
| PyOps.RealFloorDiv | model_engines/agent_creation.py:37 | A float divided with `//` by an integer gives the floor of the exact quotient |
| PyOps.IntToString | model_engines/agent_creation.py:40 | `str(i)` is the decimal digits of a non-negative number, and a minus sign before those of `-i` for a negative one |
| PyOps.NatToStringInjective | model_engines/agent_creation.py:40 | Different numbers have different decimal texts |
| PyOps.Abs | model_engines/agent_out_migration.py:37 | `abs(x)` is non-negative and is `x` or `-x` |
| Dicts.Put | model_engines/housing_market.py:55 | `d[k] = v` keeps the old keys in order, adds `k` at the end if it is new, and keeps the keys distinct |
| Dicts.Del | model_engines/housing_market.py:57 | `del d[k]` removes exactly `k` and keeps the other keys |
| Dicts.PutAll | model_engines/existing_agent_relocation.py:36-37 | Storing keys one by one keeps the old keys as a prefix and adds no duplicate |
| Dicts.PutAllFresh | model_engines/agent_creation.py:44 | New, distinct keys are appended in order |
| Dicts.Select | model_engines/existing_agent_relocation.py:35 | A sample holds the elements at the sampled positions |
| Dicts.SelectSubMultiset | model_engines/new_agent_location.py:34 | A sample of distinct positions holds no value more often than the population |
| Dicts.Repeat | model_engines/housing_inventory.py:32-33 | `n` copies of a name, none for a negative count |

## Left out

- Driver scripts (the example runs and their parallel and cluster variants): configuration, CSV output and process pools only.
- `ICOMSimulator.set_landscape`: shapefile and CSV reading and polygon centroids. The model starts from zones already built with `NewBlockGroup`.
- `landscape_statistics.py`, the pre- and post-processing scripts and `real_estate_prices.py`: statistics, GIS I/O, plotting and a no-op hedonic stub.
- `FloodGenerator`: its constructor calls `super` on a class it does not derive from, so it cannot be built.
- `LeveeManager`, `RealEstate` and `HHAgent.calc_cobb_douglas_utility`: their methods are `pass`.
- pynsim's recording of `location` as a tracked property: no engine reads it.
- The utility functions `calc_utility_cobb_douglas` and `calc_utility` are not defined in the code. A household's score for a zone is a caller-supplied `Score`.
- Logging has no effect on state and is dropped.
- Randomness: `random.sample` and `random.choice` are caller-supplied. Their distinctness and range are preconditions or `Result` errors.
- Floats: prices, rates and products are exact reals. Python's float rounding at exact `.5` products may differ.
- `get_history('demand_exceeds_supply')` is a per-zone list of flags supplied with the zone.
- `housing_bg_df` is one row per GEOID. A GEOID listed twice, which the `.values[0]` read would resolve by the first row, is not representable.
- `run_old_version` reads `pop_growth`, `no_hhs_per_agent` and `hh_size`, which `NewAgentLocation` never sets. They are parameters here.
- `'exog'` growth mode is not written in the code, so it creates nothing, like any other unknown mode.
- A household whose scored zones include a zone twice cannot arise: a zone sampled twice overwrites its own score (`Utilities.PutScore`). A proposal to a name that is not a zone fails with `UnknownZone`.
- A household waiting in both queues is one key of a zone's proposer dictionary (`Proposals.Proposers`).
- Feedback.HousingPricing: requires that the node list is the zones, each listed once. A repeated node would be repriced twice.
- As written, the proposal loops fail with AttributeError for any queued household (Findings row 1, `MarketAsWritten.RoundProposalsByKey`). The members listed next state the market with those loops reading each household's record (`.values()`) instead.
- Proposals.Propose: assumes the proposal loops read records (Findings row 1).
- Proposals.RoundProposals: assumes the proposal loops read records (Findings row 1).
- Market.Round: assumes the proposal loops read records (Findings row 1).
- Market.Rounds: assumes the proposal loops read records (Findings row 1).
- Market.HousingMarket: assumes the proposal loops read records (Findings row 1).
- MarketFacts.RoundProposes: assumes the proposal loops read records (Findings row 1).
- MarketFacts.RoundAdmissible: assumes the proposal loops read records (Findings row 1).
- MarketFacts.RoundQueues: assumes the proposal loops read records (Findings row 1).
- MarketFacts.RoundMember: assumes the proposal loops read records (Findings row 1).
- MarketFacts.StaysLocated: assumes the proposal loops read records (Findings row 1).
- MarketFacts.RoundKeeps: assumes the proposal loops read records (Findings row 1).
- MarketFacts.RoundsSucceed: assumes the proposal loops read records (Findings row 1).
- MarketFacts.HousingMarketSucceeds: assumes the proposal loops read records (Findings row 1).
- MarketAsWritten.NewProposalsAsWritten: assumes the proposal loops read records (Findings row 1).
- MarketAsWritten.StaleUtility: assumes the proposal loops read records (Findings row 1).
- MarketAsWritten.StaleUtilityExample: assumes the proposal loops read records (Findings row 1).
- MarketAsWritten.ProposalsAsWritten: states the round once both proposal loops read records (Findings row 1), because as written no round proposes at all (`MarketAsWritten.RoundProposalsByKey`).
- MarketAsWritten.ProposalsAsWritten: counts one proposal per queue entry, so a household in both queues proposes twice, where `bg_demand[z][hh.name]` would keep one key. No engine queues a household in both.
- MarketAsWritten.ProposalsAsWritten: the value `top_candidate_utility` keeps between rounds is an explicit parameter and result, because Python keeps it as a local across loop iterations.

## Findings

| source | as written | input that shows it | evidently intended | confidence | as-written member | corrected member |
|---|---|---|---|---|---|---|
| model_engines/housing_market.py:32-33, 41-42 | `for hh in self.target.unassigned_hhs` and `relocating_hhs` iterate the queue dictionaries, binding each household's name; `hh.hh_utilities` is then read from a string | `A` new with score 1 for `z1`: the first round raises AttributeError at `hh.hh_utilities`. Any non-empty queue does the same, so no household is ever placed by the market | Iterate `.values()`, the household records, as the other engines do | not executed; high | MarketAsWritten.KeyIterationExample | MarketAsWritten.ProposeValues |
| model_engines/housing_market.py:45-48 | A relocating household's proposal records `top_candidate_utility`, the variable last assigned in the new households' loop | Once :32 and :41 iterate `.values()`: `A` new with score 1 for `z1`, `B` relocating with score 5 for `z2`, and `B` proposes with 1. With no new household in the first round, the read raises UnboundLocalError | Each household proposes with its own utility for its rank-`r` zone | not executed; high | MarketAsWritten.StaleUtilityExample | MarketAsWritten.ProposalsOwnUtility |
| model_engines/housing_market.py:53-56 | The loop over `bg_demand[bg].keys()` deletes each admitted household from `bg_demand[bg]` | Once :32 and :41 iterate `.values()`: zone `z1` with one free unit and one new proposer `A`. `A` is admitted, then the loop raises RuntimeError (dictionary changed size) | Iterate over a snapshot of the proposers, admitting all of them | not executed; high | MarketAsWritten.IterationDeletionExample | Market.ClearZonesFlat |
| model_engines/housing_market.py:59, 72 | `self.target.get_node(hh_match.location)` reads an attribute of the household's name, a string | Once :32 and :41 iterate `.values()`: `B` relocating from `z1`, accepted by `z2`, raises AttributeError | Read the old zone from the household's agent record | not executed; high | MarketAsWritten.RelocationAttributeExample | Admission.AdmitAllMember |
| model_engines/housing_market.py:54, 67 | New versus relocating is decided by `year_of_residence == timestep.year` | Once :32 and :41 iterate `.values()`: `C` relocating from `z1`, arrived in the market's year 2019, joins `z2` without leaving `z1`, then `del unassigned_hhs[C]` raises KeyError | Decide by the queue the household waits in | not executed; medium | MarketAsWritten.YearBranchExample | Admission.AdmitAllQueues |
