/**
 * The per-service card of the dashboard: its priority badge colour, its
 * progress-bar colour, the "Queue nearly full!" alert and the rules that
 * disable and label its "Generate Token" button.
 */
module SavaCard {
  import opened SavaRecord

  /** The `getPriorityColor` switch over the priority string, grey by default. */
  function PriorityColour(priority: string): (c: Colour)
    ensures c != Grey <==> exists p: Priority :: PriorityName(p) == priority
    ensures forall p: Priority :: PriorityName(p) == priority ==>
              c == match p case High => Red case Medium => Yellow case Low => Green
  {
    if priority == "high" then assert PriorityName(High) == priority; Red
    else if priority == "medium" then assert PriorityName(Medium) == priority; Yellow
    else if priority == "low" then assert PriorityName(Low) == priority; Green
    else Grey
  }

  /** `getProgressColor`: red from 90 percent, yellow from 70 percent, green below. */
  function ProgressColour(s: Sava): (c: Colour)
    ensures c != Grey
    ensures c == Red <==> 10 * s.currentQueue >= 9 * s.maxCapacity
    ensures c == Yellow <==> 7 * s.maxCapacity <= 10 * s.currentQueue < 9 * s.maxCapacity
    ensures c == Green <==> 10 * s.currentQueue < 7 * s.maxCapacity
  {
    var percentage := CapacityPercentage(s);
    if AtLeast(percentage, 90) then Red
    else if AtLeast(percentage, 70) then Yellow
    else Green
  }

  /** The "Queue nearly full!" alert shows exactly when the progress bar is red. */
  function NearlyFullAlert(s: Sava): (shown: bool)
    ensures shown <==> ProgressColour(s) == Red
  {
    AtLeast(CapacityPercentage(s), 90)
  }

  /** `disabled={!sava.isActive || getCapacityPercentage() >= 100}`. */
  function ButtonDisabled(s: Sava): (disabled: bool)
    ensures disabled <==> !s.isActive || s.currentQueue >= s.maxCapacity
  {
    !s.isActive || AtLeast(CapacityPercentage(s), 100)
  }

  datatype ButtonLabel = ServiceInactive | QueueFull | GenerateToken

  /**
   * The button's label: an inactive service says so whatever its queue, a full
   * active one says "Queue Full", and only an enabled button offers a token.
   */
  function Label(s: Sava): (text: ButtonLabel)
    ensures text == ServiceInactive <==> !s.isActive
    ensures text == QueueFull <==> s.isActive && s.currentQueue >= s.maxCapacity
    ensures text == GenerateToken <==> !ButtonDisabled(s)
  {
    if !s.isActive then ServiceInactive
    else if AtLeast(CapacityPercentage(s), 100) then QueueFull
    else GenerateToken
  }

  /** Every priority a record can hold gets a band colour, never the grey default. */
  lemma PriorityColourOfRecord(p: Priority)
    ensures PriorityColour(PriorityName(p)) != Grey
  {
  }
}
