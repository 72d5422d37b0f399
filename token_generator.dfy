/**
 * The "lucky dip" token generator: the token code's format, the lookup of the
 * selected service, and the guard sequence that decides whether a token is
 * issued and the page's list incremented.
 */
module TokenGenerator {
  import opened SavaRecord
  import SavaCard
  import QueueMonitor
  import Index

  const Letters: string := "ABCDEFGHIJKLMNOPQRSTUVWXYZ"

  /** `letters.charAt(i)` for i below 26: the i-th capital letter. */
  function LetterAt(i: nat): (c: char)
    requires i < 26
    ensures 'A' <= c <= 'Z' && c as int - 'A' as int == i
  {
    ('A' as int + i) as char
  }

  /** LetterAt reads the generator's alphabet string. */
  lemma LetterAtIsCharAt()
    ensures |Letters| == 26
    ensures forall i :: 0 <= i < 26 ==> LetterAt(i) == Letters[i]
  {
  }

  predicate IsDigit(c: char)
  {
    '0' <= c <= '9'
  }

  predicate AllDigits(s: string)
  {
    forall i :: 0 <= i < |s| ==> IsDigit(s[i])
  }

  function DigitChar(d: nat): (c: char)
    requires d < 10
    ensures IsDigit(c) && c as int - '0' as int == d
  {
    ('0' as int + d) as char
  }

  /** The number a string of decimal digits denotes, most significant digit first. */
  function DigitsValue(s: string): nat
    requires AllDigits(s)
  {
    if s == [] then 0 else 10 * DigitsValue(s[..|s| - 1]) + (s[|s| - 1] as int - '0' as int)
  }

  function Pow10(k: nat): (p: nat)
    ensures p >= 1
  {
    if k == 0 then 1 else 10 * Pow10(k - 1)
  }

  /** k digits denote a number below 10^k. */
  lemma {:induction false} DigitsValueBelow(s: string)
    requires AllDigits(s)
    ensures DigitsValue(s) < Pow10(|s|)
  {
    if s != [] {
      DigitsValueBelow(s[..|s| - 1]);
    }
  }

  /** Two digit strings of the same length that denote the same number are the same string. */
  lemma {:induction false} DigitsValueInjective(s: string, t: string)
    requires AllDigits(s) && AllDigits(t) && |s| == |t|
    requires DigitsValue(s) == DigitsValue(t)
    ensures s == t
  {
    if s != [] {
      var n := |s| - 1;
      var v := DigitsValue(s);
      assert v % 10 == s[n] as int - '0' as int;
      assert v % 10 == t[n] as int - '0' as int;
      assert v / 10 == DigitsValue(s[..n]) == DigitsValue(t[..n]);
      DigitsValueInjective(s[..n], t[..n]);
      assert s == s[..n] + [s[n]];
      assert t == t[..n] + [t[n]];
    }
  }

  /** A leading zero does not change the number. */
  lemma {:induction false} LeadingZero(s: string)
    requires AllDigits(s)
    ensures AllDigits(['0'] + s) && DigitsValue(['0'] + s) == DigitsValue(s)
  {
    var z := ['0'] + s;
    if s != [] {
      assert z[..|z| - 1] == ['0'] + s[..|s| - 1];
      assert z[|z| - 1] == s[|s| - 1];
      LeadingZero(s[..|s| - 1]);
    } else {
      assert z[..|z| - 1] == [];
    }
  }

  /** Appending a character and dropping it again gives back the string. */
  lemma DropLast(prefix: string, c: char)
    ensures (prefix + [c])[..|prefix|] == prefix && (prefix + [c])[|prefix|] == c
  {
  }

  /** `n.toString()`: the decimal digits of n, without leading zeros. */
  function ToDecimal(n: nat): (s: string)
    ensures 1 <= |s| && AllDigits(s) && DigitsValue(s) == n
    ensures n > 0 ==> s[0] != '0'
    ensures n < 10 ==> |s| == 1
    ensures n < 100 ==> |s| <= 2
    ensures n < 1000 ==> |s| <= 3
  {
    var prefix := if n < 10 then [] else ToDecimal(n / 10);
    DropLast(prefix, DigitChar(n % 10));
    prefix + [DigitChar(n % 10)]
  }

  /** `s.padStart(width, pad)` for a one-character pad. */
  function PadStart(s: string, width: nat, pad: char): (padded: string)
    ensures |padded| == if |s| >= width then |s| else width
    decreases width - |s|
  {
    if |s| >= width then s else PadStart([pad] + s, width, pad)
  }

  /** The padded string is the original preceded by pad characters only. */
  lemma {:induction false} PadStartShape(s: string, width: nat, pad: char)
    ensures var padded := PadStart(s, width, pad);
            && padded[|padded| - |s|..] == s
            && forall i :: 0 <= i < |padded| - |s| ==> padded[i] == pad
    decreases width - |s|
  {
    if |s| < width {
      PadStartShape([pad] + s, width, pad);
      var padded := PadStart(s, width, pad);
      assert padded[|padded| - |s| - 1..] == [pad] + s;
      assert padded[|padded| - |s|..] == ([pad] + s)[1..];
    }
  }

  /** Padding a digit string with zeros keeps its digits and its number. */
  lemma {:induction false} ZeroPadValue(s: string, width: nat)
    requires AllDigits(s)
    ensures AllDigits(PadStart(s, width, '0'))
    ensures DigitsValue(PadStart(s, width, '0')) == DigitsValue(s)
    decreases width - |s|
  {
    if |s| < width {
      LeadingZero(s);
      ZeroPadValue(['0'] + s, width);
    }
  }

  /**
   * `generateRandomToken`, with the two `Math.random` draws as parameters: a
   * capital letter, then the number `numberDraw + 1` (1 to 999) in three
   * zero-padded digits. The code is 4 characters long, its letter gives back
   * the letter index, its digits give back the number, and they are never "000".
   */
  function TokenCode(letterIndex: nat, numberDraw: nat): (code: string)
    requires letterIndex < 26 && numberDraw < 999
    ensures |code| == 4
    ensures 'A' <= code[0] <= 'Z' && code[0] as int - 'A' as int == letterIndex
    ensures AllDigits(code[1..]) && DigitsValue(code[1..]) == numberDraw + 1
    ensures code[1..] != "000"
  {
    var digits := ToDecimal(numberDraw + 1);
    ZeroPadValue(digits, 3);
    var code := [LetterAt(letterIndex)] + PadStart(digits, 3, '0');
    assert code[1..] == PadStart(digits, 3, '0');
    code
  }

  /** A token code read back: its letter index and its number. */
  datatype Token = Token(letterIndex: nat, number: nat)

  /** Reads a code of the form `[A-Z][0-9]{3}` whose number is not zero. */
  function ParseToken(code: string): (t: Option<Token>)
    ensures t.Some? ==> t.value.letterIndex < 26 && 1 <= t.value.number <= 999
  {
    if |code| == 4 && 'A' <= code[0] <= 'Z' && AllDigits(code[1..]) && DigitsValue(code[1..]) >= 1 then
      DigitsValueBelow(code[1..]);
      assert Pow10(3) == 1000;
      Some(Token(code[0] as int - 'A' as int, DigitsValue(code[1..])))
    else None
  }

  /** Parsing a generated code gives back both draws. */
  lemma TokenRoundTrip(letterIndex: nat, numberDraw: nat)
    requires letterIndex < 26 && numberDraw < 999
    ensures ParseToken(TokenCode(letterIndex, numberDraw)) == Some(Token(letterIndex, numberDraw + 1))
  {
  }

  /** Two codes agree when their letters and their digit parts do. */
  lemma SameLetterSameDigits(a: string, b: string)
    requires |a| == |b| > 0 && a[0] == b[0] && a[1..] == b[1..]
    ensures a == b
  {
    assert a == [a[0]] + a[1..];
    assert b == [b[0]] + b[1..];
  }

  /** Every code that parses is the code generated from its own draws. */
  lemma ParseTokenInverse(code: string)
    requires ParseToken(code).Some?
    ensures var t := ParseToken(code).value;
            t.letterIndex < 26 && 0 < t.number &&
            TokenCode(t.letterIndex, t.number - 1) == code
  {
    var t := ParseToken(code).value;
    var generated := TokenCode(t.letterIndex, t.number - 1);
    assert generated[1..] == code[1..] by {
      DigitsValueInjective(generated[1..], code[1..]);
    }
    assert generated[0] == code[0] by {
      assert generated[0] as int == code[0] as int;
    }
    SameLetterSameDigits(generated, code);
  }

  /** `savas.find(s => s.id === selectedSava)`, as the position of the first match. */
  function Find(savas: seq<Sava>, savaId: string): (k: Option<nat>)
    ensures k.Some? ==> k.value < |savas| && savas[k.value].id == savaId &&
                        forall j :: 0 <= j < k.value ==> savas[j].id != savaId
    ensures k.None? ==> forall j :: 0 <= j < |savas| ==> savas[j].id != savaId
  {
    if savas == [] then None
    else if savas[0].id == savaId then Some(0)
    else match Find(savas[1..], savaId)
      case None => None
      case Some(k) => Some(k + 1)
  }

  /** `(sava.currentQueue / sava.maxCapacity) >= 1`, as an exact ratio. */
  function IsFull(s: Sava): (full: bool)
    ensures full <==> s.currentQueue >= s.maxCapacity
  {
    AtLeast(Percent(s.currentQueue, s.maxCapacity), 1)
  }

  /** A card whose button is enabled passes the generator's inactive and full guards, and conversely. */
  lemma CardGuardsAgree(s: Sava)
    ensures !SavaCard.ButtonDisabled(s) <==> s.isActive && !IsFull(s)
  {
  }

  /** The selected service's "Estimated Wait", written inline as `Math.ceil(currentQueue * 2.5)`. */
  function EstimatedWait(s: Sava): (minutes: nat)
    ensures minutes == QueueMonitor.WaitTime(s.currentQueue)
  {
    (5 * s.currentQueue + 1) / 2
  }

  /** The selected service's priority badge: red, yellow, else green. */
  function PriorityBadgeColour(p: Priority): (c: Colour)
    ensures c == QueueMonitor.PriorityTextColour(p)
    ensures c == SavaCard.PriorityColour(PriorityName(p))
  {
    if p == High then Red
    else if p == Medium then Yellow
    else Green
  }

  /** What a press of "Generate Lucky Token" ends in; each rejection has its own message, NotFound is silent. */
  datatype Outcome =
    | Issued(token: string, savaName: string)
    | NoSelection
    | NotFound
    | ServiceInactive
    | QueueFull

  /**
   * After a guarded issue on the record at k, that queue gains one place and
   * stays within its capacity; with unique ids the total grows by one and every
   * other queue stays within its capacity too.
   */
  lemma IssuedWithinCapacity(before: seq<Sava>, after: seq<Sava>, savaId: string, k: nat)
    requires k < |before| && before[k].id == savaId && !IsFull(before[k])
    requires after == Index.Incremented(before, savaId)
    ensures after[k].currentQueue == before[k].currentQueue + 1 <= after[k].maxCapacity
    ensures UniqueIds(before) ==> TotalQueue(after) == TotalQueue(before) + 1
    ensures UniqueIds(before) && WithinCapacity(before) ==> WithinCapacity(after)
  {
    if UniqueIds(before) {
      Index.IncrementGrowsTotalByOne(before, savaId, k);
      if WithinCapacity(before) {
        Index.GuardedIncrementWithinCapacity(before, savaId, k);
      }
    }
  }

  /**
   * The panel's guards read the list as it was when the button was pressed, but
   * the callback's map runs on the list as it is after the 2-second delay. A
   * card click inside that window passes the card's own button check, because
   * the card still sees a queue below capacity. So a service one place short of
   * its capacity ends one place above it.
   */
  lemma StaleGuardOverfills()
    ensures var s := Sava("1", "Darshan", "", 2, 1, true, "", High);
            var pressed := [s];
            var afterClick := Index.Incremented(pressed, s.id);
            var afterIssue := Index.Incremented(afterClick, s.id);
            && Find(pressed, s.id) == Some(0) && s.isActive && !IsFull(s)
            && !SavaCard.ButtonDisabled(pressed[0])
            && afterIssue[0].currentQueue == s.maxCapacity + 1
            && !WithinCapacity(afterIssue)
  {
  }

  /** The generator panel's own state. */
  class Generator {
    var selectedSava: string
    var isGenerating: bool
    var lastToken: Option<string>

    constructor ()
      ensures selectedSava == "" && !isGenerating && lastToken == None
    {
      selectedSava, isGenerating, lastToken := "", false, None;
    }

    /** The select box's `onValueChange`. */
    method Select(savaId: string)
      modifies this
      ensures selectedSava == savaId && isGenerating == old(isGenerating) && lastToken == old(lastToken)
    {
      selectedSava := savaId;
    }

    /** `disabled={!selectedSava || isGenerating}` on the generate button. */
    function GenerateDisabled(): (disabled: bool)
      reads this
      ensures disabled <==> selectedSava == "" || isGenerating
    {
      selectedSava == "" || isGenerating
    }

    /**
     * The part of `handleGenerateToken` after the guards: draw the token, show
     * it, call the callback with the selected id and go back to idle.
     */
    method Issue(store: Index.Store, k: nat, letterIndex: nat, numberDraw: nat) returns (outcome: Outcome)
      requires letterIndex < 26 && numberDraw < 999
      requires k < |store.savas| && store.savas[k].id == selectedSava
      requires store.savas[k].isActive && !IsFull(store.savas[k])
      modifies this, store
      ensures selectedSava == old(selectedSava)
      ensures outcome == Issued(TokenCode(letterIndex, numberDraw), old(store.savas)[k].name)
      ensures lastToken == Some(outcome.token) && !isGenerating
      ensures store.savas == Index.Incremented(old(store.savas), selectedSava)
      ensures store.savas[k].currentQueue == old(store.savas)[k].currentQueue + 1 <= store.savas[k].maxCapacity
      ensures UniqueIds(old(store.savas)) ==> TotalQueue(store.savas) == TotalQueue(old(store.savas)) + 1
      ensures UniqueIds(old(store.savas)) && WithinCapacity(old(store.savas)) ==> WithinCapacity(store.savas)
    {
      isGenerating := true;
      var token := TokenCode(letterIndex, numberDraw);
      lastToken := Some(token);
      var name := store.savas[k].name;
      ghost var before := store.savas;
      store.HandleGenerateToken(selectedSava);
      isGenerating := false;
      outcome := Issued(token, name);
      IssuedWithinCapacity(before, store.savas, selectedSava, k);
      assert old(store.savas) == before;
      assert store.savas == Index.Incremented(before, selectedSava);
    }

    /**
     * `handleGenerateToken`, with the page's store as the `onTokenGenerated`
     * callback. The guards run in the panel's order: nothing selected, id not
     * found, inactive, full. A rejection changes nothing; a success sets the
     * last token, calls the callback once with the selected id and leaves the
     * panel idle. The incremented queue stays within its capacity, and with unique
     * ids so does every other queue.
     */
    method HandleGenerateToken(store: Index.Store, letterIndex: nat, numberDraw: nat) returns (outcome: Outcome)
      requires letterIndex < 26 && numberDraw < 999
      modifies this, store
      ensures selectedSava == old(selectedSava)
      ensures selectedSava == "" ==> outcome == NoSelection
      ensures selectedSava != "" && Find(old(store.savas), selectedSava).None? ==> outcome == NotFound
      ensures selectedSava != "" && Find(old(store.savas), selectedSava).Some? ==>
                var sava := old(store.savas)[Find(old(store.savas), selectedSava).value];
                && (!sava.isActive ==> outcome == ServiceInactive)
                && (sava.isActive && IsFull(sava) ==> outcome == QueueFull)
                && (sava.isActive && !IsFull(sava) ==> outcome == Issued(TokenCode(letterIndex, numberDraw), sava.name))
      ensures outcome.Issued? ==>
                && lastToken == Some(outcome.token)
                && !isGenerating
                && store.savas == Index.Incremented(old(store.savas), selectedSava)
      ensures !outcome.Issued? ==>
                && store.savas == old(store.savas)
                && lastToken == old(lastToken)
                && isGenerating == old(isGenerating)
      ensures outcome.Issued? ==>
                var k := Find(old(store.savas), selectedSava).value;
                store.savas[k].currentQueue == old(store.savas)[k].currentQueue + 1 <= store.savas[k].maxCapacity
      ensures outcome.Issued? && UniqueIds(old(store.savas)) ==>
                TotalQueue(store.savas) == TotalQueue(old(store.savas)) + 1
      ensures outcome.Issued? && UniqueIds(old(store.savas)) && WithinCapacity(old(store.savas)) ==>
                WithinCapacity(store.savas)
    {
      if selectedSava == "" {
        return NoSelection;
      }
      var found := Find(store.savas, selectedSava);
      if found.None? {
        return NotFound;
      }
      var sava := store.savas[found.value];
      if !sava.isActive {
        return ServiceInactive;
      }
      if IsFull(sava) {
        return QueueFull;
      }
      outcome := Issue(store, found.value, letterIndex, numberDraw);
    }
  }
}
