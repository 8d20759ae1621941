/**
 * The process-wide progress reporting: a progress dialog that is created lazily, the
 * title it shows, the label with the estimated time left, and the sticky "aborted" flag
 * that remembers a cancelled dialog after it is closed. Wall-clock readings (in
 * milliseconds) and whether the caller is on the main thread are parameters.
 */
module ProgInterface {
  import opened Outcomes

  /** How long (ms) before a dialog is created lazily, and between two label updates. */
  const DialogDelay: int := 500

  // ---------------------------------------------------------------------------------------
  // Label text
  // ---------------------------------------------------------------------------------------

  function DigitChar(d: nat): (c: char)
    requires d < 10
    ensures '0' <= c <= '9' && c as int - '0' as int == d
  {
    (d + '0' as int) as char
  }

  /** The decimal text of `n`, as the label formatting writes numbers. */
  function Digits(n: nat): (r: string)
    ensures |r| >= 1
    ensures forall i :: 0 <= i < |r| ==> '0' <= r[i] <= '9'
    ensures r[0] == '0' ==> n == 0 && r == "0"
  {
    if n < 10 then [DigitChar(n)] else Digits(n / 10) + [DigitChar(n % 10)]
  }

  /** The value of a string of decimal digits. */
  function ParseDigits(s: string): nat
    requires forall i :: 0 <= i < |s| ==> '0' <= s[i] <= '9'
  {
    if |s| == 0 then 0 else ParseDigits(s[..|s| - 1]) * 10 + (s[|s| - 1] as int - '0' as int)
  }

  /** What the label shows as a number reads back as that number. */
  lemma {:induction false} DigitsRoundTrip(n: nat)
    ensures ParseDigits(Digits(n)) == n
    decreases n
  {
    if n >= 10 {
      DigitsRoundTrip(n / 10);
      var s := Digits(n);
      assert s[..|s| - 1] == Digits(n / 10);
    }
  }

  /** The text before the first ':' of `s`, all of `s` when it has none. */
  function BeforeColon(s: string): (r: string)
    ensures ':' !in r && r <= s
    ensures |r| < |s| ==> s[|r|] == ':'
  {
    if |s| == 0 || s[0] == ':' then "" else [s[0]] + BeforeColon(s[1..])
  }

  /** Appending text that starts with ':' does not change what comes before the first ':'. */
  lemma {:induction false} BeforeColonAppend(a: string, b: string)
    requires |b| > 0 && b[0] == ':'
    ensures BeforeColon(a + b) == BeforeColon(a)
    decreases |a|
  {
    if |a| == 0 {
      assert a + b == b;
    } else if a[0] != ':' {
      assert (a + b)[1..] == a[1..] + b;
      BeforeColonAppend(a[1..], b);
    }
  }

  /**
   * The estimated seconds left after `elapsed` ms for `now` of `total` steps: the whole
   * seconds of elapsed * (total - now) / now, and none before the first step.
   */
  function Eta(elapsed: nat, now: nat, total: nat): (e: nat)
    requires now < total
    ensures now == 0 ==> e == 0
    ensures now > 0 ==> e * (now * 1000) <= elapsed * (total - now) < (e + 1) * (now * 1000)
  {
    if now == 0 then 0 else (elapsed * (total - now)) / (now * 1000)
  }

  /**
   * The label after an update: the title (the text before the first ':'), then either the
   * step count and the estimated minutes and seconds, or only the step count when no
   * estimate is available.
   */
  function ProgressLabel(title: string, now: nat, total: nat, expected: nat): (r: string)
    ensures BeforeColon(r) == BeforeColon(title)
    ensures expected != 0 ==>
      r == title + (": " + Digits(now) + " of " + Digits(total) + ", estimated time: " +
                    Digits(expected / 60) + " min " + Digits(expected % 60) + " sec")
    ensures expected == 0 ==> r == title + (": " + Digits(now) + " of " + Digits(total) + "...")
  {
    var tail := if expected != 0
      then ": " + Digits(now) + " of " + Digits(total) + ", estimated time: " +
           Digits(expected / 60) + " min " + Digits(expected % 60) + " sec"
      else ": " + Digits(now) + " of " + Digits(total) + "...";
    BeforeColonAppend(title, tail);
    title + tail
  }

  /** The title survives every update: relabelling a relabelled dialog keeps the same text before ':'. */
  lemma TitleSurvivesUpdates(text: string, now: nat, total: nat, expected: nat,
                             now': nat, total': nat, expected': nat)
    ensures var once := ProgressLabel(BeforeColon(text), now, total, expected);
      BeforeColon(ProgressLabel(BeforeColon(once), now', total', expected')) == BeforeColon(text)
  {
    BeforeColonOfPrefixFree(BeforeColon(text));
  }

  lemma {:induction false} BeforeColonOfPrefixFree(s: string)
    requires ':' !in s
    ensures BeforeColon(s) == s
    decreases |s|
  {
    if |s| > 0 {
      assert s[0] in s;
      assert forall c :: c in s[1..] ==> c in s;
      BeforeColonOfPrefixFree(s[1..]);
    }
  }

  // ---------------------------------------------------------------------------------------
  // The dialog and the global state
  // ---------------------------------------------------------------------------------------

  /** A progress dialog: its label, whether Cancel was pressed, whether it shows, its range and value. */
  datatype Dialog = Dialog(labelText: string, canceled: bool, visible: bool, maximum: nat, value: nat)

  /** A dialog as it is created: shown, titled, range 0 to 100. */
  function NewDialog(title: string): (d: Dialog)
    ensures d.labelText == title && d.visible && !d.canceled && d.maximum == 100 && d.value == 0
  {
    Dialog(title, false, true, 100, 0)
  }

  class Progress {
    /** Whether the program runs with a graphical interface. */
    const hasGui: bool
    var dialog: Option<Dialog>
    var progAborted: bool
    var currentTitle: string
    /** When the last process began or ended. */
    var startTime: int
    /**
     * When the step count and the label were last restarted; None for a timer that was
     * never started, whose elapsed time reads as 0.
     */
    var totalStart: Option<int>
    var lastUpdate: Option<int>

    /** Only a program with a graphical interface ever has a dialog. */
    ghost predicate Valid()
      reads this
    {
      dialog.Some? ==> hasGui
    }

    /** The clock never runs backwards past a reading already taken. */
    predicate NotBefore(clock: int)
      reads this
    {
      clock >= startTime && (totalStart.Some? ==> clock >= totalStart.value) &&
      (lastUpdate.Some? ==> clock >= lastUpdate.value)
    }

    /** The milliseconds a timer shows at `clock`: 0 when it was never started. */
    static function Elapsed(t: Option<int>, clock: int): (e: nat)
      requires t.Some? ==> clock >= t.value
      ensures t.None? ==> e == 0
      ensures t.Some? ==> e == clock - t.value
    {
      if t.None? then 0 else clock - t.value
    }

    /**
     * The state at program start, `clock` being the start time: no dialog, no title, the
     * aborted flag clear, and the two timers not yet started.
     */
    constructor (gui: bool, clock: int)
      ensures Valid() && NotBefore(clock)
      ensures hasGui == gui && dialog.None? && !progAborted && currentTitle == ""
      ensures startTime == clock && totalStart.None? && lastUpdate.None?
    {
      hasGui := gui;
      dialog := None;
      progAborted := false;
      currentTitle := "";
      startTime, totalStart, lastUpdate := clock, None, None;
    }

    /** Whether a process is showing progress: only a visible dialog counts. */
    function IsRunning(): (r: bool)
      reads this
      ensures dialog.None? ==> !r
      ensures r <==> dialog.Some? && dialog.value.visible
    {
      if dialog.None? then false else dialog.value.visible
    }

    /**
     * Whether the current process was aborted: never off the main thread or without a
     * graphical interface; otherwise when a closed dialog had been cancelled, or the open
     * dialog is cancelled.
     */
    function ProgAborted(mainThread: bool): (r: bool)
      reads this
      ensures !hasGui || !mainThread ==> !r
      ensures hasGui && mainThread ==> (r <==> progAborted || (dialog.Some? && dialog.value.canceled))
    {
      if !hasGui || !mainThread then false
      else if progAborted then true
      else if dialog.Some? then dialog.value.canceled
      else false
    }

    /** The dialog after the lazy creation check: created once a process has run for more than the delay. */
    function Created(clock: int): (d: Option<Dialog>)
      reads this
      ensures dialog.Some? ==> d == dialog
      ensures dialog.None? ==> (d.Some? <==> clock - startTime > DialogDelay)
      ensures d.Some? && dialog.None? ==> d == Some(NewDialog(currentTitle))
    {
      if dialog.None? && clock - startTime > DialogDelay then Some(NewDialog(currentTitle)) else dialog
    }

    method CheckCreate(clock: int, mainThread: bool)
      requires Valid()
      modifies this`dialog
      ensures Valid()
      ensures !hasGui || !mainThread ==> dialog == old(dialog)
      ensures hasGui && mainThread ==> dialog == old(Created(clock))
    {
      if !hasGui || !mainThread {
        return;
      }
      if dialog.None? && clock - startTime > DialogDelay {
        dialog := Some(NewDialog(currentTitle));
      }
    }

    /**
     * Begins a process titled `title` (absent for a null title): off the main thread or
     * without a graphical interface nothing changes. Otherwise an open dialog is relabelled
     * and shown, or one is created when `alwaysShow`; the clocks restart and the aborted
     * flag is cleared.
     */
    method BeginProg(title: Option<string>, alwaysShow: bool, clock: int, mainThread: bool)
      requires Valid()
      modifies this
      ensures Valid()
      ensures !hasGui || !mainThread ==> unchanged(this)
      ensures hasGui && mainThread ==>
        && currentTitle == (if title.Some? then title.value else old(currentTitle))
        && (old(dialog).Some? ==>
              dialog == Some(old(dialog).value.(labelText := if title.Some? then title.value else "", visible := true)))
        && (old(dialog).None? && alwaysShow ==> dialog == Some(NewDialog(currentTitle)))
        && (old(dialog).None? && !alwaysShow ==> dialog.None?)
        && startTime == clock && totalStart == Some(clock) && lastUpdate == Some(clock)
        && !progAborted && (ProgAborted(mainThread) <==> dialog.Some? && dialog.value.canceled)
    {
      if !hasGui || !mainThread {
        return;
      }
      if title.Some? {
        currentTitle := title.value;
      }
      if dialog.Some? {
        dialog := Some(dialog.value.(labelText := if title.Some? then title.value else "", visible := true));
      } else if alwaysShow {
        dialog := Some(NewDialog(currentTitle));
      }
      startTime := clock;
      totalStart, lastUpdate := Some(clock), Some(clock);
      progAborted := false;
    }

    /** Renames the current process and relabels its dialog. */
    method SetTitle(title: string, mainThread: bool)
      requires Valid()
      modifies this`currentTitle, this`dialog
      ensures Valid()
      ensures !hasGui || !mainThread ==> currentTitle == old(currentTitle) && dialog == old(dialog)
      ensures hasGui && mainThread ==>
        && currentTitle == title
        && dialog == (if old(dialog).Some? then Some(old(dialog).value.(labelText := title)) else None)
    {
      if !hasGui || !mainThread {
        return;
      }
      currentTitle := title;
      if dialog.Some? {
        dialog := Some(dialog.value.(labelText := title));
      }
    }

    /** Ends the current process: the dialog goes away and whether it was cancelled is remembered. */
    method CloseProg(clock: int)
      requires Valid()
      modifies this`dialog, this`startTime, this`progAborted
      ensures Valid() && dialog.None?
      ensures old(dialog).None? ==> startTime == old(startTime) && progAborted == old(progAborted)
      ensures old(dialog).Some? ==> startTime == clock && progAborted == old(dialog).value.canceled
    {
      if dialog.None? {
        return;
      }
      startTime := clock;
      progAborted := dialog.value.canceled;
      dialog := None;
    }

    /** The user presses Cancel: the dialog is marked cancelled and hides itself. */
    method Cancel()
      requires Valid() && dialog.Some?
      modifies this`dialog
      ensures Valid()
      ensures dialog == Some(old(dialog).value.(canceled := true, visible := false))
      ensures !IsRunning() && (hasGui ==> ProgAborted(true))
    {
      dialog := Some(dialog.value.(canceled := true, visible := false));
    }

    /**
     * Reports step `now` of `total` and says whether to go on. Off the main thread, without
     * a graphical interface or without a dialog that is `now < total`, with nothing changed
     * but a lazily created dialog. A finished or cancelled process closes its dialog and
     * stops. Otherwise the label (step count and estimated time) is refreshed at most once
     * per delay, and the process goes on.
     */
    method CheckProg(now: nat, total: nat, clock: int, mainThread: bool) returns (more: bool)
      requires Valid() && NotBefore(clock)
      modifies this`dialog, this`startTime, this`progAborted, this`totalStart, this`lastUpdate
      ensures Valid() && NotBefore(clock)
      ensures !hasGui || !mainThread ==> more == (now < total) && unchanged(this)
      ensures hasGui && mainThread && old(Created(clock)).None? ==> more == (now < total) && unchanged(this)
      ensures hasGui && mainThread && old(Created(clock)).Some? ==>
        var d := old(Created(clock)).value;
        && (now >= total || d.canceled ==>
              && !more && dialog.None? && startTime == clock && progAborted == d.canceled
              && totalStart == old(totalStart) && lastUpdate == old(lastUpdate))
        && (now < total && !d.canceled ==>
              && more && startTime == old(startTime) && progAborted == old(progAborted)
              && totalStart == (if now == 0 then Some(clock) else old(totalStart))
              && (Elapsed(old(lastUpdate), clock) <= DialogDelay ==> lastUpdate == old(lastUpdate) && dialog == Some(d))
              && (Elapsed(old(lastUpdate), clock) > DialogDelay ==>
                    && lastUpdate == Some(clock)
                    && dialog == Some(d.(labelText := ProgressLabel(BeforeColon(d.labelText), now, total,
                                                               Eta(Elapsed(totalStart, clock), now, total)),
                                         maximum := total, value := now, visible := true))))
    {
      if !hasGui || !mainThread {
        return now < total;
      }
      CheckCreate(clock, mainThread);
      if dialog.None? {
        return now < total;
      }
      if now >= total || dialog.value.canceled {
        CloseProg(clock);
        return false;
      }
      if now == 0 || now == total {
        totalStart := Some(clock);
      }
      RefreshLabel(now, total, clock);
      more := now < total;
    }

    /**
     * Refreshes an open dialog for step `now` of `total`, at most once per delay: the label
     * keeps its title and shows the step count and the estimated time left.
     */
    method RefreshLabel(now: nat, total: nat, clock: int)
      requires Valid() && NotBefore(clock) && dialog.Some? && now < total
      modifies this`dialog, this`lastUpdate
      ensures Valid()
      ensures Elapsed(old(lastUpdate), clock) <= DialogDelay ==> lastUpdate == old(lastUpdate) && dialog == old(dialog)
      ensures Elapsed(old(lastUpdate), clock) > DialogDelay ==>
        var d := old(dialog).value;
        && lastUpdate == Some(clock)
        && dialog == Some(d.(labelText := ProgressLabel(BeforeColon(d.labelText), now, total,
                                                   Eta(Elapsed(totalStart, clock), now, total)),
                             maximum := total, value := now, visible := true))
    {
      if Elapsed(lastUpdate, clock) > DialogDelay {
        lastUpdate := Some(clock);
        var expected := Eta(Elapsed(totalStart, clock), now, total);
        var d := dialog.value;
        var text := ProgressLabel(BeforeColon(d.labelText), now, total, expected);
        dialog := Some(d.(labelText := text, maximum := total, value := now, visible := true));
      }
    }
  }
}
