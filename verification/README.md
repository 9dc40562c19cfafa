# Verified model of the gstwebrtcapp feed controller and safety detector

This project models the control logic of gstwebrtcapp in Dafny and proves properties of it:

- the **feed controller**, which collects one action from every video feed, sums them, splits the
  sum by importance weights and runs a clamp-and-redistribute loop until every share respects the
  limits; and the feed table around it, whose states and weights change with every command;
- the **safety detector**, in which adaptive thresholds look for trends in network statistics,
  three-state monitors count recoveries and alarms, and several switchers are coordinated into
  one published safe/unsafe choice; and the loss callback, which backs the encoder off;
- the **list arithmetic** for equidistant sampling and slicing.

Numbers that are floats in the program are exact reals here. `dafny verify dfyconfig.toml` checks
everything.

## How the model is laid out

Each imperative part exists twice: as the methods of a class (or a loop over an array) that update
fields as the program does, and as functions on values. The `ensures` of every method equate the
new state with the function of the old one, and the run-level theorems are lemmas about the functions.

| files | part of the program |
|---|---|
| `LimitLoop`, `LimitTheorems`, `LimitFairness`, `LimitCases`, `LimitMethod` | the limit loop of `_allocate_actions`: one round and k rounds as functions, theorems about every run, and the loop in place |
| `LimitParts`, `LimitSigns`, `LimitExits`, `LimitRaises`, `LimitLevels` | which weights keep that loop one-sided, in order and from raising; when it exits and with what; when it divides by zero; and when it keeps feeds in the order of their weights |
| `Feeds`, `FeedInvariants`, `FeedWeights`, `FeedRuns`, `FeedActions` | feed states, weights, limits and controller commands, what every run of commands keeps, what a message leaves and logs, and what undoes an action |
| `Allocation`, `UniformAllocation`, `FeedController` | one whole allocation, what it sends under equal weights, and the controller as an object |
| `Aggregation` | the bounded collection of one message per feed |
| `Thresholds`, `Monitors`, `Switching`, `SafetyAgent` | trend detection, the monitor's state machine, the coordination of switchers, and all three as objects |
| `LossCallback`, `SafetyDetector` | the actions sent when the loss monitor changes state, and the detector with its callbacks |
| `Lists`, `Sums`, `Options` | sampling and slicing; sums of sequences and dictionaries; values that may be missing |

Results worth knowing before reading further:

- In exact arithmetic the limit loop contracts geometrically, but it need not stop: three feeds
  can pass a shrinking excess back and forth for ever (`LimitCases.NeverExits`). With positive weights
  it exits within two passes or never, and with weights that are not negative within three
  (`LimitExits.ExitsWithinTwo`, `ExitsWithinThree`). It exits if and only if there is nothing to adjust,
  or every raw share is past the same limit, or one redistribution brings every feed it reaches within
  the limits (`LimitExits.ExitsIffSettles`; with zero weights `ExitsIffSettlesTwice`), and what it exits
  with has a closed form (`ExitShare`). The loop method and the allocation are therefore specified by the
  exit of the unbounded loop.
- Weights can be negative: adding a feed takes the same amount from every other one
  (`FeedRuns.NthFeedKeepsNonNegative`). Whatever the weights, what an allocation publishes adds up
  (`Allocation.SharesAddUp`), but a surplus can then turn into a deficit and end with a heavier feed below
  a lighter one (`LimitCases.NegativeWeightTurns`). Runs are one-sided for exactly the weights whose signs
  agree in every proper part of the feeds (`LimitSigns.OneSidedIff`), and surplus runs also keep the order
  for exactly those that are graded as well (`OrderedIff`); weights that are not negative are both.
- Some shares make the division raise if and only if a proper part of the feeds weighs nothing together
  (`LimitSigns.CanRaiseIff`), which needs no weight of zero (`LimitCases.NegativeWeightRaises`). If no
  weight is negative, it raises only beside a feed of weight zero, under an exact condition on total,
  weights and limits (`LimitRaises.RaisesIff`); around zero limits it is that every feed with weight is
  above the upper limit (`LimitRaises.RaisesAroundZero`).
- If no weight is negative, a surplus never puts a heavier feed below a lighter one, and where all raw
  shares are on one side of a limit the loop is water filling (`LimitLevels.CommonLevel`, `CommonFloor`).
  On a deficit with raw shares beyond both limits it can (`LimitCases.DeficitReorders`), exactly when the
  heavier feed's lead after clamping is smaller than what it pays more (`LimitLevels.ReordersIff`).
- Without user weights no allocation hangs or raises in the loop, and everybody is sent the n-th part of
  the sum, clamped (`UniformAllocation.UniformRunSharesEqually`).
- The weight update divides by zero exactly when the allocated set was empty and another feed than
  the one that left last is allocated (`FeedRuns.ApplyFits`). User weights that leave out an allocated
  feed keep the sum at one exactly when what they give to allocated feeds sums to one
  (`FeedRuns.UserWeightsFit`).
- A feed that leaves and comes back restores all states, but then weighs 1/n whatever it weighed before;
  the others keep their weights exactly if it weighed 1/n already (`FeedActions.ThereAndBack`,
  `ReturnKeepsWeightIff`).
- An ALARM is reachable from exactly the configurations named by `Monitors.CanAlarm`. With a trend
  budget of at least the recovery length no recovery can ever fail. A monitor stabilises from every
  reachable status unless an alarm needs no failure and a recovery more than one step
  (`Monitors.StabilisesIff`).
- Re-activating the agent publishes the unsafe choice whatever the switchers' states; safety survives a
  run if and only if every activation finds all of them healthy (`Switching.SafeIffHealthyActivations`).
- Several switchers publish the unsafe choice again only if all of them become healthy in the same
  step; two switchers with recoveries of different length stay safe for ever
  (`Switching.ReturnsOnlyInStep`, `Switching.UnequalRecoveriesStaySafe`).

## Model

| member | source | states |
|---|---|---|
| `LimitMethod.ClampInPlace` | gstwebrtcapp/run/feed_controller.py:278-290 | clamping in place leaves the clamped shares, returns what was cut off net, and lists exactly the feeds above and below the limits |
| `LimitMethod.RemainingFeeds` | gstwebrtcapp/run/feed_controller.py:293-294 | the remaining feeds are exactly those not clamped on the side of the net adjustment |
| `LimitMethod.TotalWeight` | gstwebrtcapp/run/feed_controller.py:296 | the denominator is the sum of the remaining feeds' weights |
| `LimitMethod.Redistribute` | gstwebrtcapp/run/feed_controller.py:297-299 | every remaining feed, and no other, receives its weight's fraction of the adjustment |
| `LimitMethod.RunRound` | gstwebrtcapp/run/feed_controller.py:277-304 | one pass over the mutable shares refines the round function, with its four ways to end |
| `LimitMethod.RespectLimits` | gstwebrtcapp/run/feed_controller.py:274-304 | what it exits with is the exit of the unbounded loop, and with weights that are not negative and ordered limits it gives up only on a loop that never exits |
| `LimitLoop.RoundConserves` | gstwebrtcapp/run/feed_controller.py:278-304 | a round that goes on has the total it began with; one that stops has lost exactly the adjustment |
| `LimitLoop.PositiveNeverRaises` | gstwebrtcapp/run/feed_controller.py:292-299 | with positive weights the division by the remaining weight never raises |
| `LimitLoop.MirrorRound` | gstwebrtcapp/run/feed_controller.py:281-299 | the round is symmetric: negating shares and swapping negated limits negates the result and keeps the exit |
| `LimitTheorems.OneSided` | gstwebrtcapp/run/feed_controller.py:277-304 | if the signs of the weights agree, as when none is negative, the adjustment never changes sign over a run and clamped shares only move its way |
| `LimitTheorems.RunConserves` | gstwebrtcapp/run/feed_controller.py:277-304 | any number of rounds conserves the total, unless the run ends on the break or the failed division |
| `LimitTheorems.SaturatesOnlyAtOnce` | gstwebrtcapp/run/feed_controller.py:300-302 | whatever the weights, the saturated break can fire only in the first round |
| `LimitTheorems.ExitCharacterisation` | gstwebrtcapp/run/feed_controller.py:277-304 | whenever the loop has exited without raising, whatever the weights, all shares are within the limits and sum to the total, or all sit at one limit and the total lies beyond n times it |
| `LimitTheorems.InfeasibleExits` | gstwebrtcapp/run/feed_controller.py:277-304 | for a total the limits cannot hold, the loop exits if and only if all raw shares are strictly past the same limit |
| `LimitTheorems.Contraction` | gstwebrtcapp/run/feed_controller.py:274-304 | each redistributing round is followed by an adjustment at most (1 - w/W) times as large |
| `LimitTheorems.ContractionOverRun` | gstwebrtcapp/run/feed_controller.py:274-304 | after k further rounds the adjustment is at most (1 - w/W)^k of the first |
| `LimitTheorems.ReachesTolerance` | gstwebrtcapp/run/feed_controller.py:274-304 | every positive tolerance is reached within an explicit number of rounds |
| `LimitFairness.ConvergesGeometrically` | gstwebrtcapp/run/feed_controller.py:274-304 | after j rounds every clamped share is within (1 - w/W)^j of the first adjustment of all its later values |
| `LimitFairness.Proportional` | gstwebrtcapp/run/feed_controller.py:263-304 | feeds never clamped keep shares in the ratio of their weights |
| `LimitFairness.HeavierNotLess` | gstwebrtcapp/run/feed_controller.py:263-304 | if the weights are graded and their signs agree, as when none is negative, on surplus runs of a non-negative total a heavier feed is never below a lighter one, in any round and at the exit |
| `LimitSigns.OneSidedIff` | gstwebrtcapp/run/feed_controller.py:277-304 | over all shares and limits runs are one-sided if and only if no proper part of the feeds has a weight of the opposite sign |
| `LimitSigns.TurnsIntoDeficit` | gstwebrtcapp/run/feed_controller.py:277-304 | such a part turns some surplus into a deficit in one round |
| `LimitSigns.OrderedIff` | gstwebrtcapp/run/feed_controller.py:277-304 | from all shares in the order of weights surplus runs stay one-sided and in order if and only if also no lightest part of negative weight has two different weights |
| `LimitSigns.CanRaiseIff` | gstwebrtcapp/run/feed_controller.py:292-299 | for any weights, some shares and limits make the division raise if and only if a proper part of the feeds weighs nothing |
| `LimitSigns.NoZeroPartNoRaise` | gstwebrtcapp/run/feed_controller.py:292-299 | if no proper part weighs nothing, no round over any shares and limits raises |
| `LimitCases.TwoFeeds` | gstwebrtcapp/run/feed_controller.py:274-304 | two feeds: two rounds reach the closed form, feed A clamped to what both limits allow and B the rest |
| `LimitExits.ExitsWithinTwo` | gstwebrtcapp/run/feed_controller.py:277-304 | with positive weights the loop exits within two passes or never |
| `LimitExits.ExitsWithinThree` | gstwebrtcapp/run/feed_controller.py:277-304 | with weights that are not negative it exits or raises within three passes or never |
| `LimitExits.StuckForEver` | gstwebrtcapp/run/feed_controller.py:277-304 | once nothing is below the lower limit, a feed with weight rests at the upper one and another is above it, no later round is the last |
| `LimitExits.ExitsIffSettles` | gstwebrtcapp/run/feed_controller.py:277-304 | with positive weights the unbounded loop exits if and only if nothing is to adjust, all shares are past one limit, or one redistribution fits |
| `LimitExits.ExitsIffSettlesTwice` | gstwebrtcapp/run/feed_controller.py:277-304 | with weights that are not negative it exits or raises if and only if the raw shares settle so, or only weightless feeds are past the limit and the shares with the adjustment split over all others do |
| `LimitExits.ExitShare` | gstwebrtcapp/run/feed_controller.py:277-304 | a closed form of what it exits with, feed by feed, for all weights that are not negative |
| `LimitExits.ThirdGoesOn` | gstwebrtcapp/run/feed_controller.py:292-302 | a third pass neither raises nor breaks, whatever the weights that are not negative |
| `LimitRaises.RaisesIff` | gstwebrtcapp/run/feed_controller.py:292-299 | for all weights that are not negative, totals and ordered limits: the division raises in some round if and only if the input meets an explicit condition |
| `LimitRaises.RaisesAroundZero` | gstwebrtcapp/run/feed_controller.py:292-299 | for a non-negative total and limits around zero it raises if and only if one feed weighs nothing and every other one is above the limit |
| `LimitRaises.SecondRaise` | gstwebrtcapp/run/feed_controller.py:292-299 | the second round raises exactly if the first lifts every feed with weight above the upper limit |
| `LimitLevels.CommonLevel` | gstwebrtcapp/run/feed_controller.py:263-304 | with no raw share below the lower limit, every round clamps to min(hi, t * weight) for one level t of at least the total |
| `LimitLevels.CommonFloor` | gstwebrtcapp/run/feed_controller.py:263-304 | with no raw share above the upper limit, every round clamps to max(lo, t * weight) for one t of at most the total |
| `LimitLevels.HeavierNotLessInDeficit` | gstwebrtcapp/run/feed_controller.py:263-304 | with no raw share above the upper limit a deficit keeps order by weight, in any round and at the exit |
| `LimitLevels.ReordersIff` | gstwebrtcapp/run/feed_controller.py:263-304 | the exact condition on raw shares for the heavier of two feeds to end below the lighter one, over all inputs with non-negative weights and total on which the loop exits |
| `LimitCases.ZeroWeightRaises` | gstwebrtcapp/run/feed_controller.py:295-298 | an example: a zero weight beside a feed above its limit divides by zero |
| `LimitCases.NegativeWeightRaises` | gstwebrtcapp/run/feed_controller.py:295-298 | an example without any zero weight in which the remaining weights cancel out and the division raises |
| `LimitCases.NegativeWeightTurns` | gstwebrtcapp/run/feed_controller.py:277-304 | an example with weights that a joining feed leaves: a surplus turns into a deficit and the loop exits out of order |
| `LimitCases.NeverExits` | gstwebrtcapp/run/feed_controller.py:277-304 | an example: a feasible input with three feeds on which no round is the last |
| `LimitCases.DeficitReorders` | gstwebrtcapp/run/feed_controller.py:277-304 | an example: a deficit run that ends with the heavier feed below the lighter one |
| `Allocation.PublishesOnlyToAllocated` | gstwebrtcapp/run/feed_controller.py:306-309 | an allocation publishes to every allocated feed that arrived and never to a MANUAL or OFF one |
| `Allocation.PublishesOnce` | gstwebrtcapp/run/feed_controller.py:306-309 | no feed is published to twice |
| `Allocation.FirstArrived` | gstwebrtcapp/run/feed_controller.py:257-262 | the keys are those of the first allocated feed in order of arrival |
| `Allocation.RequestedTotal` | gstwebrtcapp/run/feed_controller.py:258-261 | what the feeds ask for under a key, added up in order of arrival, is the sum over all that arrived |
| `Allocation.SharedByWeight` | gstwebrtcapp/run/feed_controller.py:257-309 | each feed is sent that sum times its own weight, unless some share is beyond a limit |
| `Allocation.EnumeratedSum` | gstwebrtcapp/run/feed_controller.py:264-271 | when all allocated feeds arrived, their weights are all the weights |
| `Allocation.GetsThroughIffSettles` | gstwebrtcapp/run/feed_controller.py:273-304 | without negative weights every action's loop exits without raising if and only if every limited action meets the exit condition and not the raising one |
| `Allocation.SharesAddUp` | gstwebrtcapp/run/feed_controller.py:255-309 | whoever arrived and whatever the weights: published shares add up to the sum asked for times the weight that arrived, as far as the limits allow |
| `Allocation.AllocationConserves` | gstwebrtcapp/run/feed_controller.py:255-304 | when all allocated feeds arrived, published shares are within the limits and add up to what the feeds asked for, as far as the limits of n feeds allow |
| `Allocation.OwnShares` | gstwebrtcapp/run/feed_controller.py:265-309 | every feed that arrived is sent its own share of each action |
| `UniformAllocation.UniformRunSharesEqually` | gstwebrtcapp/run/feed_controller.py:255-309 | after any run without user weights no allocation hangs or raises in the loop, and every feed that arrived is sent the n-th part of the sum, clamped |
| `FeedControllers.SumActions` | gstwebrtcapp/run/feed_controller.py:258-261 | the sum over all distinct feeds that arrived of what each asks for |
| `FeedControllers.FeedController.AllocateKey` | gstwebrtcapp/run/feed_controller.py:265-304 | one action is split by weight and, if limited, run through the loop in place to the unbounded loop's own exit |
| `FeedControllers.FeedController.AllocateKeys` | gstwebrtcapp/run/feed_controller.py:274-304 | success means that every limited action's loop exits, raising that one divides by zero, giving up (without negative weights) that one never exits |
| `FeedControllers.FeedController.PublishShares` | gstwebrtcapp/run/feed_controller.py:306-309 | appends exactly one publication per allocated feed that arrived, in topic order |
| `FeedControllers.FeedController.FindsAll` | gstwebrtcapp/run/feed_controller.py:257-271 | the lookups succeed exactly if somebody arrived, has every key of the first feed and, if there are any, a weight |
| `FeedControllers.FeedController.AllocateActions` | gstwebrtcapp/run/feed_controller.py:255-309 | publishes only if every lookup succeeds and every limited action's loop exits, always then if no weight is negative, with exactly the limited shares; otherwise nothing changes |
| `Feeds.ApplyStructured` | gstwebrtcapp/run/feed_controller.py:102-176 | every action keeps feed order, topics and allocated topics consistent |
| `FeedInvariants.ApplyKeepsStatuses` | gstwebrtcapp/run/feed_controller.py:134-176 | allocated feeds are in the allocated set, manual and off ones are not, at most one independent one is: kept by every action |
| `FeedInvariants.AllocNeverEmpties` | gstwebrtcapp/run/feed_controller.py:352-363 | an alloc event never empties the allocated set |
| `FeedInvariants.RunKeepsStatuses` | gstwebrtcapp/run/feed_controller.py:82-178 | the feed-state invariant holds after every run of commands, also one that raises |
| `FeedInvariants.ApplyKeepsOtherLimits` | gstwebrtcapp/run/feed_controller.py:127-133 | of all feed actions only max_bitrate changes limits, and none changes the initial ones |
| `FeedWeights.RoomSum` | gstwebrtcapp/run/feed_controller.py:404-411 | making room for a new feed moves weight without losing any |
| `FeedWeights.WeightsAfterUpdate` | gstwebrtcapp/run/feed_controller.py:375-411 | after an accepted update exactly the allocated feeds have weights, with their exact sum, and when it raises |
| `FeedWeights.WeightsExactly` | gstwebrtcapp/run/feed_controller.py:383-411 | every weight after an accepted update: what all lack to one in equal parts, or 1/n for the last feed left out and 1/(n(n-1)) less for the others |
| `FeedWeights.DifferencesKept` | gstwebrtcapp/run/feed_controller.py:383-403 | an accepted update that covers the allocated feeds keeps the differences between the weights given |
| `FeedWeights.LastMissingIsLast` | gstwebrtcapp/run/feed_controller.py:381-389 | of several allocated feeds without a given weight it is the last in feed order that counts as new |
| `FeedWeights.ReallocationFits` | gstwebrtcapp/run/feed_controller.py:331-365 | the controller's own updates keep weights fitting and equal weights equal, and raise exactly on an empty allocated set |
| `FeedRuns.ApplyFits` | gstwebrtcapp/run/feed_controller.py:103-176 | every action keeps the weight invariant and raises exactly in the listed cases |
| `FeedRuns.CompleteIsWellGiven` | gstwebrtcapp/run/feed_controller.py:384-394 | user weights that cover the allocated feeds are well given |
| `FeedRuns.UserWeightsFit` | gstwebrtcapp/run/feed_controller.py:375-411 | user weights keep the invariant if and only if they are well given |
| `FeedRuns.RunKeepsWeights` | gstwebrtcapp/run/feed_controller.py:82-178 | after every run of well-given commands the weights belong to exactly the allocated feeds and sum to one |
| `FeedRuns.RunStaysUniform` | gstwebrtcapp/run/feed_controller.py:82-178 | without user weights, weights that start uniform are 1/n after every run |
| `FeedRuns.NthFeedWeights` | gstwebrtcapp/run/feed_controller.py:311-411 | the n-th allocated feed, new or rejoining, gets 1/n and every other one pays the same contribution |
| `FeedRuns.TakenBackWeights` | gstwebrtcapp/run/feed_controller.py:352-365 | the same for an independent feed that is taken back |
| `FeedRuns.LeavingShares` | gstwebrtcapp/run/feed_controller.py:333-363 | when a feed leaves by off, manual or alloc, each of the others gains the same part of its weight |
| `FeedRuns.ContributionIsQuotient` | gstwebrtcapp/run/feed_controller.py:406-408 | the equal part is 1/n and that contribution 1/(n(n-1)) |
| `FeedRuns.NthFeedKeepsNonNegative` | gstwebrtcapp/run/feed_controller.py:404-411 | adding the n-th feed, however it joins, keeps weights non-negative if and only if each old one was at least 1/(n(n-1)) |
| `FeedActions.ActionMoves` | gstwebrtcapp/run/feed_controller.py:134-176 | after every action that does not raise its feed is in the state and in or out of the allocated set as the action says, and no other feed has moved |
| `FeedActions.ActionSends` | gstwebrtcapp/run/feed_controller.py:113-176 | what one action logs, and the limits it leaves |
| `FeedActions.MessageSends` | gstwebrtcapp/run/feed_controller.py:102-176 | a whole message logs exactly what its actions send, in order, and leaves the maximum bitrate of its last max_bitrate |
| `FeedActions.MessageSplits` | gstwebrtcapp/run/feed_controller.py:102-176 | actions apply one after the other, up to one that raises |
| `FeedActions.UnknownFeedIgnored` | gstwebrtcapp/run/feed_controller.py:105-112 | a message for an unknown feed is ignored from an action on that does not turn it on |
| `FeedActions.GeneralChanges` | gstwebrtcapp/run/feed_controller.py:89-101 | commands for all feeds set the bitrate limits alone, or the weights alone |
| `FeedActions.GeneralsSplit` | gstwebrtcapp/run/feed_controller.py:89-101 | they apply one after the other, up to one that raises |
| `FeedActions.ActionOrders` | gstwebrtcapp/run/feed_controller.py:311-331 | a new feed comes last, and no action reorders the others |
| `FeedActions.ThereAndBack` | gstwebrtcapp/run/feed_controller.py:134-176 | off and on, manual and back, alloc false and true: states, topics and allocated feeds are restored, and every weight afterwards is given |
| `FeedActions.ReturnKeepsWeightIff` | gstwebrtcapp/run/feed_controller.py:396-411 | the others keep their weights if and only if the feed weighed 1/n |
| `FeedControllers.FeedController.constructor` | gstwebrtcapp/run/feed_controller.py:45-56 | every feed starts allocated, by default with uniform weights; all invariants hold |
| `FeedControllers.FeedController.PassOverFeeds` | gstwebrtcapp/run/feed_controller.py:383-394 | the pass assigns given weights, drops stale ones and returns the last allocated feed without a weight |
| `FeedControllers.ShiftAll` | gstwebrtcapp/run/feed_controller.py:401-403 | every weight moves by the averaged remainder |
| `FeedControllers.MakeRoomFor` | gstwebrtcapp/run/feed_controller.py:406-411 | the new feed gets an equal part and every other feed pays the same |
| `FeedControllers.FeedController.UpdateAllocationWeights` | gstwebrtcapp/run/feed_controller.py:375-411 | refines the weight update, with its rejection and its division by zero |
| `FeedControllers.FeedController.AddFeed` | gstwebrtcapp/run/feed_controller.py:311-331 | refines adding a new or a known feed, and the missing-topic exception |
| `FeedControllers.FeedController.RemoveFeed` | gstwebrtcapp/run/feed_controller.py:333-350 | refines taking a feed out of the allocated set |
| `FeedControllers.FeedController.ChangeAllocStatus` | gstwebrtcapp/run/feed_controller.py:352-365 | refines switching between allocated and independent, keeping the last feed |
| `FeedControllers.FeedController.UpdateActionLimits` | gstwebrtcapp/run/feed_controller.py:415-422 | only the bitrate limits change |
| `FeedControllers.FeedController.HandleAction` | gstwebrtcapp/run/feed_controller.py:111-178 | refines the dispatch of one action for a feed |
| `FeedControllers.FeedController.HandleActions` | gstwebrtcapp/run/feed_controller.py:103-178 | refines the actions of one feed, stopping at the first one for an unknown feed |
| `FeedControllers.FeedController.HandleCommand` | gstwebrtcapp/run/feed_controller.py:82-178 | refines one entry of a controller message |
| `Aggregation.SleepUntil` | gstwebrtcapp/utils/base.py:120-141 | the wait succeeds exactly if the condition holds at the end of some tick, and then lasted at least one tick |
| `Aggregation.IntervalsAre` | gstwebrtcapp/run/feed_controller.py:217 | the number of ticks is that of whole tenths of a second |
| `Aggregation.TickIsLong` | gstwebrtcapp/run/feed_controller.py:216-220 | a tick derived from the waiting time is at least 0.1 s |
| `Aggregation.Aggregate` | gstwebrtcapp/run/feed_controller.py:212-253 | terminates under any message flood after at most max_aggregation_time / 0.1 messages, with exactly what those messages amount to; it times out only if no message comes in the time that is left |
| `Aggregation.LatestWins` | gstwebrtcapp/run/feed_controller.py:251 | a credited feed's entry is its latest consumed message |
| `Aggregation.OnlyCredited` | gstwebrtcapp/run/feed_controller.py:227-251 | every entry comes from a message credited to that feed |
| `Aggregation.CreditIsUnique` | gstwebrtcapp/run/feed_controller.py:227-229 | with prefix-free names a message is credited to the one feed whose name prefixes its id, in any iteration order |
| `Aggregation.ReceiverIsUnique` | gstwebrtcapp/run/feed_controller.py:227-249 | with prefix-free names, which feed a message is credited or passed on to does not depend on any iteration order |
| `Aggregation.RelaysOnlyToIndependent` | gstwebrtcapp/run/feed_controller.py:228-246 | an aggregation publishes only to feeds that are INDEPENDENT and not allocated at that moment |
| `Aggregation.MapValueWithin` | gstwebrtcapp/utils/base.py:179-207 | a mapped value is within the new range, and ends go to ends |
| `Aggregation.MapsLinearly` | gstwebrtcapp/utils/base.py:179-207 | inside the old range the mapping is linear |
| `Aggregation.MapsOutside` | gstwebrtcapp/utils/base.py:202-205 | outside it a value is mapped like the nearer end |
| `Aggregation.RelaysContent` | gstwebrtcapp/run/feed_controller.py:231-246 | a relayed message carries every action, mapped if it has limits and unchanged if not, or the turn raises |
| `Thresholds.AverageIsHalfGap` | gstwebrtcapp/control/safety/thresholder.py:53-61 | the weighted average is half the gap between the newest value and the exponentially smoothed older ones |
| `Thresholds.AverageBounded` | gstwebrtcapp/control/safety/thresholder.py:53-61 | for values in [lo, hi] its size is at most (hi - lo)/2 |
| `Thresholds.ThresholdStaysBounded` | gstwebrtcapp/control/safety/thresholder.py:27-64 | for samples in [lo, hi] and 0 <= k <= 1 the threshold stays in [0, (hi - lo)/2] over every run |
| `Thresholds.UnitIndependence` | gstwebrtcapp/control/safety/thresholder.py:27-64 | two runs: samples in another unit give the same verdicts and a scaled threshold |
| `Thresholds.VerdictsIgnoreUnits` | gstwebrtcapp/control/safety/thresholder.py:6-64 | the same from a new detector |
| `Thresholds.DirectionsMirror` | gstwebrtcapp/control/safety/thresholder.py:37-41 | two runs: direction "d" on negated samples gives the verdicts of direction "i" |
| `Thresholds.FallingNeverTrends` | gstwebrtcapp/control/safety/thresholder.py:27-51 | samples that never rise never raise an "i" trend |
| `Thresholds.FallingFromTheStart` | gstwebrtcapp/control/safety/thresholder.py:27-51 | the same from a new detector |
| `Thresholds.TrendsAreRare` | gstwebrtcapp/control/safety/thresholder.py:32-51 | every trend is paid for by its own allowed excesses past the warmup |
| `Thresholds.TrendBound` | gstwebrtcapp/control/safety/thresholder.py:32-51 | N samples report at most max(0, N - warmup)/excesses_allowed trends |
| `Thresholds.VerdictExactly` | gstwebrtcapp/control/safety/thresholder.py:32-51 | the exact verdict and count after one sample, by half the gap to the smoothed older values |
| `Thresholds.ExcessesAddUp` | gstwebrtcapp/control/safety/thresholder.py:43-51 | over consecutive exceeding samples trends times the allowance plus the count is the number of samples |
| `Thresholds.TrendsExactly` | gstwebrtcapp/control/safety/thresholder.py:43-51 | m consecutive exceeding samples report exactly (excesses + m) / excesses_allowed trends |
| `Thresholds.FirstRiseIsATrend` | gstwebrtcapp/control/safety/thresholder.py:27-51 | a new detector without warmup reports the first rise, or fall, at once |
| `Thresholds.ThresholdCloses` | gstwebrtcapp/control/safety/thresholder.py:63-64 | the distance of the threshold to the average's size shrinks by 1 - k |
| `Thresholds.WindowIsNewest` | gstwebrtcapp/control/safety/thresholder.py:20-28 | the window holds the newest samples, as many as fit |
| `Thresholds.Thresholder.constructor` | gstwebrtcapp/control/safety/thresholder.py:6-25 | a new detector, with warmup and allowed excesses bounded below |
| `Thresholds.Thresholder.CheckTrend` | gstwebrtcapp/control/safety/thresholder.py:27-51 | refines the check of one sample |
| `Thresholds.Thresholder.GetWeightedAverage` | gstwebrtcapp/control/safety/thresholder.py:53-61 | the loop computes the weighted sum of the newest differences |
| `Thresholds.Thresholder.UpdateThreshold` | gstwebrtcapp/control/safety/thresholder.py:63-64 | the threshold moves towards the average's size |
| `Monitors.StepKeepsInv` | gstwebrtcapp/control/safety/monitor.py:177-247 | counters are zero outside their states, bounded inside, and trends never outnumber recovery steps: kept by every step |
| `Monitors.ForcedKeepsInv` | gstwebrtcapp/control/safety/switcher.py:42-50 | a reset outside alarm keeps the invariant |
| `Monitors.ReachableInv` | gstwebrtcapp/control/safety/monitor.py:130-150 | the invariant holds after every run of steps and resets from the initial status |
| `Monitors.CodeMeans` | gstwebrtcapp/control/safety/monitor.py:177-208 | code 1 exactly when the state changes, 2 exactly when a recovery goes on after a failed attempt not yet reported, else 0 |
| `Monitors.FailedAttempt` | gstwebrtcapp/control/safety/monitor.py:186-247 | an attempt over its trend budget fails: it is counted and reported at once, or raises the alarm |
| `Monitors.ToleratedAttempt` | gstwebrtcapp/control/safety/monitor.py:228-247 | an attempt within its budget goes on step by step and ends healthy |
| `Monitors.SelfStabilises` | gstwebrtcapp/control/safety/monitor.py:177-247 | without trends the monitor is healthy after exactly its rank, at most one alarm and one recovery, and stays so |
| `Monitors.ZeroFailuresNeverSettle` | gstwebrtcapp/control/safety/monitor.py:186-219 | with zero failures to alarm and a longer recovery it never becomes healthy again |
| `Monitors.StabilisesIff` | gstwebrtcapp/control/safety/monitor.py:177-247 | the monitor stabilises from every reachable status if and only if failures to alarm are not zero or a recovery takes at most one step |
| `Monitors.AlarmNeedsEvidence` | gstwebrtcapp/control/safety/monitor.py:186-219 | entering ALARM takes at least F(T+1) recovery steps with a trend since the last reset or time outside recovery |
| `Monitors.NeverAlarms` | gstwebrtcapp/control/safety/monitor.py:210-247 | configurations that cannot alarm never do |
| `Monitors.AlarmReachable` | gstwebrtcapp/control/safety/monitor.py:186-247 | ALARM is reachable if and only if the configuration allows it |
| `Monitors.AlarmLasts` | gstwebrtcapp/control/safety/monitor.py:200-226 | an ALARM lasts exactly max(1, alarm_iterations) steps and ends in RECOVERY |
| `Switching.DecideKeepsInv` | gstwebrtcapp/control/safety/agent.py:180-213 | a switcher's algorithm is unsafe exactly while it is healthy, and the unsafe choice stands only while all are healthy: kept by every decision |
| `Switching.ReactsAtOnce` | gstwebrtcapp/control/safety/agent.py:180-204 | with all switchers healthy, a step in which one sees a trend publishes safe in that step |
| `Switching.PublishesExactly` | gstwebrtcapp/control/safety/agent.py:180-213 | safe is published exactly if somebody healthy sees a trend and nobody is in ALARM, unsafe exactly if everybody recovers in this step, else nothing; and all switchers then run what was published |
| `Switching.AlarmSilences` | gstwebrtcapp/control/safety/agent.py:192-205 | while a switcher is in ALARM nothing is published and no switcher is forced |
| `Switching.AlarmSilencesRun` | gstwebrtcapp/control/safety/agent.py:180-213 | a step of a run that ends with a switcher in ALARM publishes nothing |
| `Switching.ForcedTo` | gstwebrtcapp/control/safety/switcher.py:42-50 | forced switchers run the algorithm with counters at zero and never in ALARM, the others are unchanged |
| `Switching.SwitchingSafety` | gstwebrtcapp/control/safety/agent.py:180-213 | over every run: while the last choice is unsafe every switcher is healthy with algorithm 1, and a trend publishes safe at once |
| `Switching.SafeIffHealthyActivations` | gstwebrtcapp/control/safety/agent.py:76-213 | over every run of decisions and activations the safety invariant holds throughout if and only if every activation finds all switchers healthy |
| `Switching.DecideKeepsConsistent` | gstwebrtcapp/control/safety/agent.py:180-213 | a decision that publishes restores the whole invariant, also after such an activation |
| `Switching.SingleSwitcherFollows` | gstwebrtcapp/control/safety/agent.py:180-213 | with one switcher the published choice equals its algorithm after every step |
| `Switching.AlarmUninterrupted` | gstwebrtcapp/control/safety/agent.py:192-211 | force_algo never interrupts an ALARM |
| `Switching.AlarmEndsInRecovery` | gstwebrtcapp/control/safety/agent.py:192-211 | an ALARM that ends is followed by RECOVERY whatever the other switchers do |
| `Switching.AlarmLastsInDetector` | gstwebrtcapp/control/safety/agent.py:180-213 | in every run of decisions an ALARM lasts exactly max(1, alarm_iterations) steps |
| `Switching.ReturnsOnlyInStep` | gstwebrtcapp/control/safety/agent.py:205-213 | without trends the unsafe choice is published if and only if all switchers become healthy in the same step |
| `Switching.UnequalRecoveriesStaySafe` | gstwebrtcapp/control/safety/agent.py:205-213 | two switchers with different recovery lengths never return to the unsafe choice, whatever else they are configured with |
| `Switching.UnsettledStaysSafe` | gstwebrtcapp/control/safety/agent.py:205-213 | one switcher that cannot settle keeps the unsafe choice from ever returning |
| `SafetyAgents.Monitor.Act` | gstwebrtcapp/control/safety/monitor.py:152-175 | the detectors take their samples and the trend flag follows the agreement strategy; nothing changes if a target is missing |
| `SafetyAgents.HalfIsMajority` | gstwebrtcapp/control/safety/monitor.py:166-175 | half is a strict majority of the detectors |
| `SafetyAgents.AgreementsNested` | gstwebrtcapp/control/safety/monitor.py:166-175 | all implies half implies any on verdicts, and what each says of none |
| `SafetyAgents.OneMoreVerdict` | gstwebrtcapp/control/safety/monitor.py:166-175 | what one more verdict changes |
| `SafetyAgents.SensedLocally` | gstwebrtcapp/control/safety/monitor.py:152-165 | a detector depends on its own target alone, and a missing target changes nothing |
| `SafetyAgents.Monitor.CheckTrends` | gstwebrtcapp/control/safety/monitor.py:162-165 | every detector checks its own target's value |
| `SafetyAgents.Monitor.CheckStateChange` | gstwebrtcapp/control/safety/monitor.py:177-208 | refines the state machine and its return code |
| `SafetyAgents.Monitor.IsAlarm` | gstwebrtcapp/control/safety/monitor.py:210-219 | refines the alarm test and its resets |
| `SafetyAgents.Monitor.IsAlarmEnd` | gstwebrtcapp/control/safety/monitor.py:221-226 | refines the alarm counter |
| `SafetyAgents.Monitor.IsRecovered` | gstwebrtcapp/control/safety/monitor.py:228-247 | refines the recovery test and its effects on four counters |
| `SafetyAgents.Switcher.Act` | gstwebrtcapp/control/safety/switcher.py:24-40 | refines the switcher's step and what it asks for |
| `SafetyAgents.Switcher.ForceAlgo` | gstwebrtcapp/control/safety/switcher.py:42-50 | refines the reset |
| `SafetyAgents.SafetyDetectorAgent.ActAll` | gstwebrtcapp/control/safety/agent.py:182-194 | every switcher acts once on its own trend; the counts and the alarm flag are exact |
| `SafetyAgents.SafetyDetectorAgent.ForceAll` | gstwebrtcapp/control/safety/agent.py:198-202 | exactly the switchers of the other algorithm are reset |
| `SafetyAgents.SafetyDetectorAgent.Decide` | gstwebrtcapp/control/safety/agent.py:180-213 | refines the switchers' half of a decision on new statistics |
| `SafetyDetectors.SafetyDetector.Decide` | gstwebrtcapp/control/safety/agent.py:180-219 | refines the whole decision: the switchers', then every callback's, with what each publishes in order |
| `SafetyDetectors.AnswersInOrder` | gstwebrtcapp/control/safety/agent.py:215-219 | callbacks publish in their order, at most one message each |
| `SafetyDetectors.SafetyDetector.Turn` | gstwebrtcapp/control/safety/agent.py:60-74 | one turn of the loop decides on the latest statistics, and on none if inactive, interrupted or without any |
| `SafetyDetectors.SafetyDetector.ActOne` | gstwebrtcapp/control/safety/agent.py:215-219 | one callback reacts to the statistics and nothing else changes |
| `SafetyDetectors.SafetyDetector.ChangeStatus` | gstwebrtcapp/control/safety/agent.py:76-82 | activation publishes the unsafe choice and touches neither switchers nor callbacks |
| `SafetyAgents.SafetyDetectorAgent.ChangeStatus` | gstwebrtcapp/control/safety/agent.py:76-82 | activation publishes the unsafe choice and leaves the switchers as they are |
| `LossCallbacks.FindNearest` | gstwebrtcapp/control/safety/callbacks.py:90-92 | the loop finds the first nearest member |
| `LossCallbacks.NearestMonotone` | gstwebrtcapp/control/safety/callbacks.py:90-92 | the nearest member is monotone in the value, with ties to the lower one |
| `LossCallbacks.NearestToMember` | gstwebrtcapp/control/safety/callbacks.py:90-92 | a member is nearest to itself |
| `LossCallbacks.BackOff` | gstwebrtcapp/control/safety/callbacks.py:105-122 | what is sent after more failed recoveries is never higher, number or resolution, and always in range |
| `LossCallbacks.BacksOffInRecovery` | gstwebrtcapp/control/safety/callbacks.py:23-122 | over every run, whatever is sent within one recovery is never higher than what was sent before in it, setting by setting |
| `LossCallbacks.SendsExactly` | gstwebrtcapp/control/safety/callbacks.py:23-136 | what a step sends in terms of what happens to the monitor: entering each state, another failed attempt, and nothing otherwise |
| `LossCallbacks.FactorStandsOverRuns` | gstwebrtcapp/control/safety/callbacks.py:105-112 | over every run the factor in recovery is the one for the failures so far |
| `LossCallbacks.FactorsMultiply` | gstwebrtcapp/control/safety/callbacks.py:106 | factors multiply, so the n-th is 0.75 to the power of n + 1 |
| `LossCallbacks.FactorFallsStrictly` | gstwebrtcapp/control/safety/callbacks.py:106 | each failure lowers the factor |
| `LossCallbacks.TruncatedIs` | gstwebrtcapp/control/safety/callbacks.py:78-88 | conversion to an integer truncates towards zero |
| `LossCallbacks.SendsNearest` | gstwebrtcapp/control/safety/callbacks.py:68-122 | after some failures the first member nearest to the truncated product is sent |
| `LossCallbacks.HealthyValuesAreSent` | gstwebrtcapp/control/safety/callbacks.py:102-103 | healthy values that are members of their ranges are sent as they are |
| `LossCallbacks.ResponseInRange` | gstwebrtcapp/control/safety/callbacks.py:23-59 | everything sent in any state is a member of its range, and a max_bitrate is at least 700 |
| `LossCallbacks.AlarmValuesAreSent` | gstwebrtcapp/control/safety/callbacks.py:124-136 | in ALARM exactly the configured alarm values are sent |
| `LossCallbacks.LossTrendCallback.Act` | gstwebrtcapp/control/safety/callbacks.py:23-36 | refines the reaction to a state change or a failed recovery |
| `LossCallbacks.LossTrendCallback.OnRecovery` | gstwebrtcapp/control/safety/callbacks.py:105-122 | refines the scaling by the power of the failures, once per failure |
| `LossCallbacks.RunKeepsLimitsOrdered` | gstwebrtcapp/run/feed_controller.py:127-133 | over every run of commands with such bitrates the controller's bitrate limits stay ordered for an initial lower limit of at most 700 |
| `Lists.RoundsNear` | gstwebrtcapp/utils/base.py:264-270 | rounding is to within one half |
| `Lists.TiesToEven` | gstwebrtcapp/utils/base.py:264-270 | a tie goes to the even neighbour |
| `Lists.CutIsNear` | gstwebrtcapp/utils/base.py:264-265 | the cut is the percentage to within one half, unless capped |
| `Lists.NextIsLarger` | gstwebrtcapp/utils/base.py:266-271 | consecutive sampled indices differ under banker's rounding |
| `Lists.SamplingIsRegular` | gstwebrtcapp/utils/base.py:263-274 | for any cut, exactly n strictly ascending indices from the capped cut to the end, so sorting is a no-op |
| `Lists.SamplingIsNear` | gstwebrtcapp/utils/base.py:266-270 | every index is within one half of its ideal position |
| `Lists.SelectEquidistant` | gstwebrtcapp/utils/base.py:246-274 | for every n and every cut: both errors, the two small cases, the sampled elements, and the two elements a count below one returns |
| `Lists.SlicesJoin` | gstwebrtcapp/utils/base.py:301-309 | the i-th sliding slice is the first equidistant slices joined |
| `Lists.FairPartition` | gstwebrtcapp/utils/base.py:297-309 | the equidistant slices make up the list and their lengths differ by at most one, longer first |
| `Lists.SliceInIntervals` | gstwebrtcapp/utils/base.py:277-311 | the loop produces exactly those slices, and the division by zero |

## Left out

- Float rounding: all arithmetic is exact, so a sum of weights that exceeds one by a rounding error, and an adjustment that reaches 0.0 by rounding, are not modelled.
- `LimitMethod.RespectLimits`: takes a number of further passes, because the exact loop need not stop; with negative weights, which adding feeds can produce, or a lower limit above the upper one, it may give up on a loop that would exit later.
- `LimitRaises.RaisesIff`: with negative weights `LimitSigns.CanRaiseIff` decides whether some shares make the division raise, not which totals do.
- `LimitFairness.HeavierNotLess`: for weights outside its conditions `LimitSigns.OrderedIff` says that some shares lose the order, not which totals do.
- `FeedControllers.FeedController.AllocateActions`: with negative weights or unordered limits, giving up does not mean that a loop never exits; the iteration orders of the aggregated actions and of the allocated topics are parameters, and messages that carry no dictionary are not passed to it.
- `FeedControllers.FeedController.UpdateAllocationWeights`: takes the given weights as a value; entries the program removes from the caller's own dictionary are not modelled, and passing its own weights is passing a copy of them, which no branch can tell apart.
- `FeedControllers.FeedController.RemoveFeed`: the variant that forgets a feed for ever has no caller and is not modelled.
- `Aggregation.Aggregate`: starts when the message queue exists; the wait for a first queue is not modelled. The clock never runs backwards, and the feed table may change arbitrarily between messages.
- `SafetyDetectors.SafetyDetector.Turn`: the statistics that a turn fetched are its parameter; the message queue and its timeout are not modelled.
- `Switching.SwitchingSafety`: holds while the detector stays active; `Switching.SafeIffHealthyActivations` states what re-activations do to it.
- `LossCallbacks.BackOff`: the action "preset" is not modelled, since its values are not of the form width x height.
- MQTT transport, JSON, subscriptions, logging and threads; a publication is an entry of a log.
- Computing statistics from RTCP reports, configuration parsing, the agent switching of the connectors, GStreamer and WebRTC, learning agents and rewards.
- The meaning of return code 2 of the monitor beyond what a single step returns: its flag survives the entry into ALARM.
