# Temple queue dashboard: queue, capacity and token rules

The dashboard keeps a list of temple services ("savas"). Each has a capacity, a
current queue, an active flag, a time slot and a priority. Devotees draw a
"lucky dip" token for a service. Issuing a token adds one person to that
service's queue. Four components share the rules modelled here:

- **SavaCard** shows one service. It has a capacity percentage, a priority
  badge, a progress colour, a "Queue nearly full!" alert and a "Generate Token"
  button. The button is disabled and relabelled when the service is inactive or
  full.
- **QueueMonitor** shows a number of things:
  - a wait estimate of 2.5 minutes per person, rounded up;
  - status labels Critical/Busy/Moderate/Light at 90/70/30 percent, with their
    colours;
  - a capacity alert;
  - summary figures: total queue, active services, average wait and critical
    queues.
- **TokenGenerator** runs a guard sequence (no selection, unknown id, inactive,
  full) and then produces a token code. The code is one capital letter plus a
  number from 1 to 999 in three zero-padded digits. It then reports the
  selected id to the page.
- **Index**, the page, owns the list. Its only state change increments the
  queue of every record carrying the issued id.

The Dafny modules follow the files:

- `SavaRecord` holds the shared record, exact percentages and the two
  aggregates.
- `SavaCard`, `QueueMonitor`, `Index` and `TokenGenerator` each model the
  component of the same name.

Percentages are exact rationals (`Percent(num, den)`). Every threshold test is
a cross-multiplication, so `(q / m) * 100 >= 90` becomes `100 q >= 90 m`.

The page's list is a `seq<Sava>` field of the class `Index.Store`, which its
method reassigns. The generator panel's `selectedSava`, `isGenerating` and
`lastToken` are fields of the class `TokenGenerator.Generator`. The two
`Math.random` draws are parameters. Each toast message is a constructor of the
returned `Outcome`.

## Model

| member | source | states |
|---|---|---|
| SavaRecord.CapacityPercentage | src/components/SavaCard.tsx:25 | the percentage reaches 100 exactly when the queue has reached the capacity, and reaches 90 exactly when 10·queue ≥ 9·capacity; it stays at or below 100 percent exactly when the queue is within capacity |
| SavaRecord.CapacityPercentageMonotone | src/components/SavaCard.tsx:25 | for a fixed capacity, a longer queue never gives a smaller percentage |
| SavaRecord.AtLeastMonotone | src/components/QueueMonitor.tsx:33-38 | a percentage that reaches a threshold keeps reaching it when it grows |
| SavaRecord.TotalQueue | src/pages/Index.tsx:69 | the summed queue bounds every record's queue and is 0 on the empty list |
| SavaRecord.TotalQueueConcat | src/components/TokenGenerator.tsx:206 | the sum of a concatenation is the sum of the parts |
| SavaRecord.ActiveSavas | src/components/TokenGenerator.tsx:86 | the filter yields only active records of the list, every active record of the list, and no more records than the list |
| SavaRecord.ActiveSavasConcat | src/pages/Index.tsx:70 | the filter distributes over concatenation, so active records keep their original order |
| SavaRecord.ActiveSavasSingleton | src/components/QueueMonitor.tsx:169 | on one record the filter keeps it exactly when it is active |
| SavaCard.PriorityColour | src/components/SavaCard.tsx:27-34 | "high", "medium" and "low" map to red, yellow and green; the colour is grey exactly when the string names no priority |
| SavaCard.PriorityColourOfRecord | src/components/SavaCard.tsx:27-34 | no priority a record can hold falls to the grey default |
| SavaCard.ProgressColour | src/components/SavaCard.tsx:36-41 | never grey; red exactly from 90 percent, yellow exactly from 70 up to 90 percent, green exactly below 70 percent |
| SavaCard.NearlyFullAlert | src/components/SavaCard.tsx:102 | the alert shows exactly when the progress bar is red, i.e. from 90 percent |
| SavaCard.ButtonDisabled | src/components/SavaCard.tsx:112 | disabled exactly when the service is inactive or its queue has reached capacity |
| SavaCard.Label | src/components/SavaCard.tsx:119-121 | "Service Inactive" exactly when inactive, whatever the queue; "Queue Full" exactly when active and full; "Generate Token" exactly when the button is enabled |
| QueueMonitor.WaitTime | src/components/QueueMonitor.tsx:23-25 | the wait is the least whole number of minutes not below 2.5 per person: 5q ≤ 2·wait < 5q + 2 |
| QueueMonitor.WaitTimeMonotone | src/components/QueueMonitor.tsx:23-25 | a longer queue never gives a shorter wait |
| QueueMonitor.WaitTimeExamples | src/components/QueueMonitor.tsx:23-25 | 0, 1 and 4 people wait 0, 3 and 10 minutes |
| QueueMonitor.StatusText | src/components/QueueMonitor.tsx:33-38 | exactly one label, whose severity equals the number of thresholds (30, 70, 90) the percentage reaches, so every band includes its lower bound and the first match wins |
| QueueMonitor.StatusTextMonotone | src/components/QueueMonitor.tsx:33-38 | a higher percentage never gives a lighter label |
| QueueMonitor.StatusBandEdges | src/components/QueueMonitor.tsx:33-38 | just below 30/70/90 percent gives Light/Moderate/Busy; exactly 30/70/90 gives Moderate/Busy/Critical |
| QueueMonitor.StatusColour | src/components/QueueMonitor.tsx:27-31 | red exactly for Critical, yellow exactly for Busy, green exactly for Moderate or Light |
| QueueMonitor.BadgeColour | src/components/QueueMonitor.tsx:76-84 | the badge's inline bands pick the same colour as the status colour |
| QueueMonitor.CapacityAlert | src/components/QueueMonitor.tsx:140 | the alert shows exactly for a Critical queue, and exactly when the service card shows its own near-full alert |
| QueueMonitor.PriorityTextColour | src/components/QueueMonitor.tsx:122-126 | on every priority it agrees with the service card's priority colour |
| QueueMonitor.MaxWait | src/components/QueueMonitor.tsx:175 | the longest per-service wait is attained by some service and bounds all of them |
| QueueMonitor.MinWait | src/components/QueueMonitor.tsx:175 | the shortest per-service wait is attained by some service and is below all of them |
| QueueMonitor.SumWaits | src/components/QueueMonitor.tsx:175 | the summed per-service waits are at least 2.5 minutes per queued person and at most half a minute more per service |
| QueueMonitor.SumWaitsAtMost | src/components/QueueMonitor.tsx:175 | a sum of waits each at most b is at most n·b |
| QueueMonitor.SumWaitsAtLeast | src/components/QueueMonitor.tsx:175 | a sum of waits each at least b is at least n·b |
| QueueMonitor.AverageWait | src/components/QueueMonitor.tsx:175 | no average exactly on the empty list; otherwise the least whole number not below the mean: n·(avg − 1) < sum ≤ n·avg |
| QueueMonitor.AverageWaitBetween | src/components/QueueMonitor.tsx:175 | on a non-empty list the average lies between the shortest and the longest wait |
| QueueMonitor.CriticalCount | src/components/QueueMonitor.tsx:181 | the critical-queue count is at most the number of services |
| QueueMonitor.CriticalCountIsStatusCount | src/components/QueueMonitor.tsx:181 | in exact arithmetic the "Critical Queues" figure counts exactly the cards labelled Critical |
| QueueMonitor.StatusCountsPartition | src/components/QueueMonitor.tsx:57-58 | the four label counts add up to the number of services |
| Index.Incremented | src/pages/Index.tsx:73-77 | same length and order; a record with the id gains one in its queue and keeps every other field; every other record is unchanged |
| Index.CountId | src/pages/Index.tsx:73-77 | the number of records carrying the id, zero exactly when none does |
| Index.CountIdUnique | src/pages/Index.tsx:73-77 | with unique ids, a present id is carried by exactly one record |
| Index.IncrementUnknownId | src/pages/Index.tsx:73-77 | an id matching no record leaves the list identical |
| Index.IncrementTotal | src/pages/Index.tsx:69 | the total queue grows by the number of records carrying the id |
| Index.IncrementGrowsTotalByOne | src/pages/Index.tsx:69-77 | with unique ids, "Total Devotees" grows by exactly one after an increment on a present id |
| Index.IncrementKeepsActiveServices | src/pages/Index.tsx:70-77 | issuing never changes the number of active services |
| Index.IncrementKeepsIds | src/pages/Index.tsx:73-77 | ids are untouched, so uniqueness is kept |
| Index.IncrementChecksNothing | src/pages/Index.tsx:72-78 | the increment itself checks nothing: an inactive, full record is pushed past its capacity |
| Index.GuardedIncrementWithinCapacity | src/pages/Index.tsx:73-77 | with unique ids, incrementing a record below capacity keeps every queue within capacity |
| Index.Seed | src/pages/Index.tsx:24-65 | the initial list holds four services with distinct ids and no queue above its capacity |
| Index.SeedTotals | src/pages/Index.tsx:69-70 | on the initial list: 469 devotees in 3 active services |
| Index.SeedAbhishekam | src/pages/Index.tsx:35-44 | the Abhishekam queue is Moderate and an increment takes it from 67 to 68 |
| Index.SeedAverageWait | src/components/QueueMonitor.tsx:175 | the computed average wait on the initial list is 294 minutes |
| Index.Store.constructor | src/pages/Index.tsx:24-65 | the page starts with the seed list |
| Index.Store.HandleGenerateToken | src/pages/Index.tsx:72-78 | the list becomes its increment on the id |
| Index.Store.GenerateFromCard | src/pages/Index.tsx:173-178 | a card's click fires exactly when its button is enabled, then increments that card's id; with unique ids no queue rises above capacity |
| TokenGenerator.LetterAt | src/components/TokenGenerator.tsx:32-34 | the i-th letter is a capital whose offset from 'A' is i |
| TokenGenerator.LetterAtIsCharAt | src/components/TokenGenerator.tsx:32-34 | the alphabet string has 26 letters and LetterAt reads it |
| TokenGenerator.ToDecimal | src/components/TokenGenerator.tsx:36 | `toString` gives at least one decimal digit, denotes n, has no leading zero, and has at most three digits below 1000 |
| TokenGenerator.PadStart | src/components/TokenGenerator.tsx:36 | `padStart` gives the width, or the original length when that is longer |
| TokenGenerator.PadStartShape | src/components/TokenGenerator.tsx:36 | the padded string ends with the original and starts with pad characters only |
| TokenGenerator.ZeroPadValue | src/components/TokenGenerator.tsx:36 | zero padding keeps a digit string's digits and its number |
| TokenGenerator.DigitsValueBelow | src/components/TokenGenerator.tsx:35-36 | k digits denote a number below 10^k |
| TokenGenerator.DigitsValueInjective | src/components/TokenGenerator.tsx:35-36 | equal-length digit strings denoting the same number are the same string |
| TokenGenerator.LeadingZero | src/components/TokenGenerator.tsx:36 | a leading zero does not change the number |
| TokenGenerator.TokenCode | src/components/TokenGenerator.tsx:31-36 | 4 characters; a capital letter at the drawn index; three digits denoting the drawn number plus one; never "000" |
| TokenGenerator.ParseToken | src/components/TokenGenerator.tsx:31-36 | a code that parses has a letter index below 26 and a number from 1 to 999 |
| TokenGenerator.TokenRoundTrip | src/components/TokenGenerator.tsx:31-36 | parsing a generated code returns both draws |
| TokenGenerator.ParseTokenInverse | src/components/TokenGenerator.tsx:31-36 | every code that parses is the code generated from its own draws |
| TokenGenerator.Find | src/components/TokenGenerator.tsx:49 | `find` returns the first position carrying the id, or nothing exactly when no record carries it |
| TokenGenerator.IsFull | src/components/TokenGenerator.tsx:61 | the ratio reaches 1 exactly when the queue has reached the capacity |
| TokenGenerator.CardGuardsAgree | src/components/TokenGenerator.tsx:52-68 | a card's button is enabled exactly when the generator's inactive and full guards would pass |
| TokenGenerator.EstimatedWait | src/components/TokenGenerator.tsx:148 | the panel's inline estimate equals the monitor's wait time |
| TokenGenerator.PriorityBadgeColour | src/components/TokenGenerator.tsx:136-139 | the panel's badge agrees with the monitor's priority colour and the card's priority colour |
| TokenGenerator.IssuedWithinCapacity | src/components/TokenGenerator.tsx:61-77 | after a guarded increment the issued queue gains one place and stays within its capacity; with unique ids the total grows by one and every other queue stays within capacity |
| TokenGenerator.Generator.constructor | src/components/TokenGenerator.tsx:27-29 | nothing selected, idle, no last token |
| TokenGenerator.Generator.Select | src/components/TokenGenerator.tsx:27 | selecting changes only the selection |
| TokenGenerator.Generator.GenerateDisabled | src/components/TokenGenerator.tsx:160 | the generate button is disabled exactly when nothing is selected or a draw is in progress |
| TokenGenerator.Generator.Issue | src/components/TokenGenerator.tsx:70-83 | the token is the generated code, it becomes the last token, the callback increments the selected id once, the panel ends idle, and the issued queue stays within its capacity (every queue does with unique ids) |
| TokenGenerator.Generator.HandleGenerateToken | src/components/TokenGenerator.tsx:39-84 | guards in order: nothing selected, id not found (silent), inactive whatever the queue, full; a rejection changes nothing; success issues the code for that service, increments the store once and keeps the issued queue within its capacity; with unique ids it adds one to the total and keeps every queue within capacity |
| TokenGenerator.StaleGuardOverfills | src/components/TokenGenerator.tsx:49-77 | a service one short of its capacity passes the panel's guards; a card click during the delay and then the panel's callback leave it one above its capacity |

## Left out

- Rendering, Tailwind classes, the Card/Badge/Progress/Select/Tabs components and icons are presentation only. Each colour rule is modelled as the band it picks (`Colour`).
- The toasts are not side effects here. Each one is the `Outcome` constructor it corresponds to.
- TokenGenerator.Generator.HandleGenerateToken: the 2-second "lucky dip" delay (src/components/TokenGenerator.tsx:73) is not modelled. The guards and the increment run as one step on the same list, and `isGenerating` is set and cleared within it. The capacity guarantee of this method and of `Issue` therefore assumes that no other increment lands inside the delay. In the dashboard as written, one can: a card click (src/components/SavaCard.tsx:112, src/pages/Index.tsx:177), or a second press after the tabs remount the panel. `TokenGenerator.StaleGuardOverfills` shows the overfill (see Findings).
- `Math.random` is not modelled. The letter index (below 26) and the number draw (below 999) are parameters.
- Floating-point division and `toFixed(0)` are not modelled. Percentages and ratios are exact rationals, and display rounding is left out.
- The hard-coded "25 min" (src/pages/Index.tsx:153, src/components/TokenGenerator.tsx:213) and "9-11 AM" (src/pages/Index.tsx:163) are not derived from data. On the seed list the monitor's computed average is 294 minutes (`Index.SeedAverageWait`).
- QueueMonitor.AverageWait: on the empty list the monitor divides 0 by 0 and shows NaN. The model returns `None` there.
- SavaRecord.Pos: capacities are strictly positive by type. The seed never has a zero capacity, and the dashboard would divide by zero on one.
- Index.GuardedIncrementWithinCapacity: the capacity bound needs unique ids. `find` checks only the first record with the id, while the map increments every record with it. The dashboard does not enforce uniqueness; the seed has it (`Index.Seed`).
- React `useState` plumbing is not modelled beyond plain fields, and neither is the render lifecycle. The page's own unused `selectedSava` state (src/pages/Index.tsx:67) is left out.
- The stat cards in the generator panel ("Active Services", "Total Queue") and in the monitor ("Total", "Active") are modelled by the shared `SavaRecord.ActiveSavas` and `SavaRecord.TotalQueue`.

## Findings

| source | as written | input that shows it | evidently intended | confidence | as-written member | corrected member |
|---|---|---|---|---|---|---|
| src/components/TokenGenerator.tsx:49-77 | the full-queue guard reads the list before the 2-second delay, and the callback's map increments whatever the list holds after it | a service with capacity 2 and queue 1; press "Generate Lucky Token", then click that service's card button within 2 seconds: the queue ends at 3 | a token is issued only to a service below capacity, so no queue goes above its capacity | medium, not executed | TokenGenerator.StaleGuardOverfills | TokenGenerator.Generator.HandleGenerateToken |
