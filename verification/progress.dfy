/**
 * The terminal progress bar of utils/progress.py: the integer arithmetic that
 * decides how much of the bar is filled, the bar itself, the line written to
 * the terminal and the rule that completes it with a newline.
 *
 * The percentage is a floating-point format of `iteration / total`; it enters
 * here as an already formatted string. Printing is replaced by returning what
 * would be printed.
 */
module Progress {
  import opened Wrappers
  import opened Strings

  /** The exceptions the function raises instead of printing anything. */
  datatype Fault = ZeroDivisionError | OverflowError

  /**
   * What one call writes to the terminal: the bar line, the `print_end`
   * written after it, and whether a bare newline follows.
   */
  datatype Emission = Emission(line: string, end: string, newline: bool)

  /**
   * `2^1024 - 2^970`: the least magnitude at which converting an integer to a
   * double rounds past the largest finite double, so `float(x)` raises.
   */
  const FloatOverflowBound: int := 0xfffffffffffffc00_0000000000000000_0000000000000000_0000000000000000_0000000000000000_0000000000000000_0000000000000000_0000000000000000_0000000000000000_0000000000000000_0000000000000000_0000000000000000_0000000000000000_0000000000000000_0000000000000000_0000000000000000

  /** `float(x)` succeeds: `x` rounds to a finite double. */
  predicate FitsFloat(x: int)
  {
    -FloatOverflowBound < x < FloatOverflowBound
  }

  /** Python's floor division `a // b`, for any non-zero divisor. */
  function FloorDiv(a: int, b: int): (q: int)
    requires b != 0
    ensures b > 0 ==> q * b <= a < q * b + b
    ensures b < 0 ==> q * b + b < a <= q * b
  {
    if b > 0 then a / b else (-a) / (-b)
  }

  /**
   * `filled_length`: how many of the `length` cells are filled. It is the
   * largest count whose share of `total` does not pass `length * iteration`.
   */
  function FilledLength(iteration: int, total: int, length: int): (n: int)
    requires total != 0
    ensures total > 0 ==> n * total <= length * iteration < n * total + total
    ensures total < 0 ==> n * total + total < length * iteration <= n * total
  {
    FloorDiv(length * iteration, total)
  }

  /**
   * `bar`: `filled_length` copies of `fill`, then dashes up to `length` cells.
   * Either count is clipped at zero, as Python's `str * k` is.
   */
  function Bar(iteration: int, total: int, length: int, fill: string): (bar: string)
    requires total != 0
    ensures var n := FilledLength(iteration, total, length);
      var filledPart := if n <= 0 then 0 else n * |fill|;
      var dashes := if length - n <= 0 then 0 else length - n;
      |bar| == filledPart + dashes &&
      bar[..filledPart] == Repeat(fill, n) &&
      forall k :: filledPart <= k < |bar| ==> bar[k] == '-'
  {
    var filled := FilledLength(iteration, total, length);
    RepeatSingle('-', length - filled);
    assert "-" == ['-'];
    Repeat(fill, filled) + Repeat("-", length - filled)
  }

  /**
   * Building the bar raises `OverflowError`: the count of fills or of dashes
   * is not index-sized, or its repetition would be longer than a `str` can be.
   */
  predicate BarOverflows(iteration: int, total: int, length: int, fill: string)
    requires total != 0
  {
    var n := FilledLength(iteration, total, length);
    RepeatOverflows(fill, n) || RepeatOverflows("-", length - n)
  }

  /**
   * One call of `print_progress_bar`, with Python's defaults. Computing the
   * percentage converts `total` and then `iteration` to a double, which raises
   * `OverflowError` when either is out of range, and then divides, which
   * raises `ZeroDivisionError` for a zero `total`. Building the bar raises
   * `OverflowError` when a repetition count is out of range. Nothing is
   * printed then. Otherwise the bar line is printed followed by `printEnd`,
   * and a newline follows exactly when the last iteration is reached.
   */
  function Render(iteration: int, total: int, percent: string,
                  prefix: string := "", suffix: string := "", length: int := 100,
                  fill: string := "\U{2588}", printEnd: string := "\r"): (r: Result<Emission, Fault>)
    ensures r == Failure(OverflowError) <==>
      !FitsFloat(total) || !FitsFloat(iteration) || (total != 0 && BarOverflows(iteration, total, length, fill))
    ensures r == Failure(ZeroDivisionError) <==> FitsFloat(iteration) && total == 0
    ensures r.Success? ==> r.value.end == printEnd
    ensures r.Success? ==> (r.value.newline <==> iteration == total)
  {
    if !FitsFloat(total) || !FitsFloat(iteration) then Failure(OverflowError)
    else if total == 0 then Failure(ZeroDivisionError)
    else if BarOverflows(iteration, total, length, fill) then Failure(OverflowError)
    else
      var bar := Bar(iteration, total, length, fill);
      Success(Emission("\r" + prefix + " |" + bar + "| " + percent + "% " + suffix, printEnd, iteration == total))
  }

  /** The characters an emission puts on the terminal: the line, then `print_end`, then the newline if any. */
  function Output(e: Emission): (out: string)
    ensures |out| == |e.line| + |e.end| + (if e.newline then 1 else 0)
    ensures out[..|e.line|] == e.line && out[|e.line|..|e.line| + |e.end|] == e.end
    ensures e.newline <==> |out| > |e.line| + |e.end|
    ensures e.newline ==> out[|out| - 1] == '\n'
  {
    e.line + e.end + (if e.newline then "\n" else "")
  }

  // ---------------------------------------------------------------------------
  // Arithmetic helpers

  lemma MulMonotone(c: int, x: int, y: int)
    requires c >= 0 && x <= y
    ensures c * x <= c * y && x * c <= y * c
  {
    assert c * y - c * x == c * (y - x);
  }

  /** Cancels a positive factor from a strict inequality. */
  lemma CancelLess(x: int, y: int, d: int)
    requires d > 0 && x * d < y * d
    ensures x < y
  {
    if x >= y {
      MulMonotone(d, y, x);
    }
  }

  // ---------------------------------------------------------------------------
  // filled_length

  /** Within the range the bar describes, the filled part never exceeds the bar. */
  lemma FilledLengthBounds(iteration: int, total: int, length: int)
    requires length >= 0
    requires 0 <= iteration <= total || total <= iteration <= 0
    requires total != 0
    ensures 0 <= FilledLength(iteration, total, length) <= length
  {
    var q := FilledLength(iteration, total, length);
    if total > 0 {
      MulMonotone(length, 0, iteration);
      MulMonotone(length, iteration, total);
      // q * total <= length * iteration <= length * total
      CancelLess(q, length + 1, total);
      // 0 <= length * iteration < q * total + total
      CancelLess(-1, q, total);
    } else {
      MulMonotone(length, iteration, 0);
      MulMonotone(length, total, iteration);
      // length * total <= length * iteration <= q * total, with total < 0
      CancelLess(q, length + 1, -total);
      // (q + 1) * total < length * iteration <= 0
      CancelLess(-1, q, -total);
    }
  }

  /** Reaching the last iteration fills the whole bar, whatever its length. */
  lemma FilledLengthComplete(total: int, length: int)
    requires total != 0
    ensures FilledLength(total, total, length) == length
  {
    var q := FilledLength(total, total, length);
    assert length * total == total * length;
    if total > 0 {
      CancelLess(q, length + 1, total);
      CancelLess(length, q + 1, total);
    } else {
      CancelLess(q, length + 1, -total);
      CancelLess(length, q + 1, -total);
    }
  }

  /** With a positive total, a later iteration never fills less of the bar. */
  lemma FilledLengthMonotone(i: int, j: int, total: int, length: int)
    requires total > 0 && length >= 0 && i <= j
    ensures FilledLength(i, total, length) <= FilledLength(j, total, length)
  {
    var p, q := FilledLength(i, total, length), FilledLength(j, total, length);
    MulMonotone(length, i, j);
    // p * total <= length * i <= length * j < q * total + total
    CancelLess(p, q + 1, total);
  }

  /** Past the last iteration the filled part reaches at least the full length. */
  lemma FilledLengthOverrun(iteration: int, total: int, length: int)
    requires total > 0 && length >= 0 && iteration > total
    ensures FilledLength(iteration, total, length) >= length
  {
    FilledLengthMonotone(total, iteration, total, length);
    FilledLengthComplete(total, length);
  }

  // ---------------------------------------------------------------------------
  // bar

  /** `n` one-character fills followed by `length - n` dashes, for `0 <= n <= length`. */
  lemma CellsOf(n: int, length: int, c: char)
    requires 0 <= n <= length
    ensures var cells := Repeat([c], n) + Repeat("-", length - n);
      && |cells| == length
      && (forall k :: 0 <= k < n ==> cells[k] == c)
      && (forall k :: n <= k < length ==> cells[k] == '-')
  {
    assert "-" == ['-'];
    RepeatSingle(c, n);
    RepeatSingle('-', length - n);
  }

  /** With a one-character fill and an iteration in range, the bar is exactly `length` cells: filled ones first, dashes after. */
  lemma BarCells(iteration: int, total: int, length: int, fill: string)
    requires |fill| == 1 && length >= 0 && total != 0
    requires 0 <= iteration <= total || total <= iteration <= 0
    ensures var n := FilledLength(iteration, total, length);
      var bar := Bar(iteration, total, length, fill);
      && 0 <= n <= length
      && |bar| == length
      && (forall k :: 0 <= k < n ==> bar[k] == fill[0])
      && (forall k :: n <= k < length ==> bar[k] == '-')
  {
    var n := FilledLength(iteration, total, length);
    FilledLengthBounds(iteration, total, length);
    assert fill == [fill[0]];
    assert Bar(iteration, total, length, fill) == Repeat([fill[0]], n) + Repeat("-", length - n);
    CellsOf(n, length, fill[0]);
  }

  /** A later iteration keeps every filled cell filled: the bar only advances. */
  lemma BarAdvances(i: int, j: int, total: int, length: int, fill: string, k: int)
    requires |fill| == 1 && fill[0] != '-' && length >= 0 && total > 0
    requires 0 <= i <= j <= total
    requires 0 <= k < |Bar(i, total, length, fill)| && Bar(i, total, length, fill)[k] == fill[0]
    ensures k < |Bar(j, total, length, fill)| && Bar(j, total, length, fill)[k] == fill[0]
  {
    BarCells(i, total, length, fill);
    BarCells(j, total, length, fill);
    FilledLengthMonotone(i, j, total, length);
  }

  /** On the last iteration the bar is all fill: no dash remains when `fill` has none. */
  lemma BarComplete(total: int, length: int, fill: string)
    requires total != 0
    ensures Bar(total, total, length, fill) == Repeat(fill, length)
    ensures '-' !in fill ==> '-' !in Bar(total, total, length, fill)
  {
    FilledLengthComplete(total, length);
    assert Repeat("-", 0) == [];
    if '-' in Bar(total, total, length, fill) {
      RepeatMembers(fill, length, '-');
    }
  }

  /** On iteration zero nothing is filled: the bar is `length` dashes. */
  lemma BarEmpty(total: int, length: int, fill: string)
    requires total != 0
    ensures Bar(0, total, length, fill) == Repeat("-", length)
    ensures forall k :: 0 <= k < |Bar(0, total, length, fill)| ==> Bar(0, total, length, fill)[k] == '-'
  {
    assert length * 0 == 0;
    assert FilledLength(0, total, length) == 0;
    assert Repeat(fill, 0) == [];
    assert "-" == ['-'];
    RepeatSingle('-', length);
  }

  /** Past the last iteration the negative dash count contributes nothing: the bar is fill only. */
  lemma BarOverrun(iteration: int, total: int, length: int, fill: string)
    requires total > 0 && length >= 0 && iteration > total
    ensures FilledLength(iteration, total, length) >= length
    ensures Bar(iteration, total, length, fill) == Repeat(fill, FilledLength(iteration, total, length))
  {
    FilledLengthOverrun(iteration, total, length);
    assert Repeat("-", length - FilledLength(iteration, total, length)) == [];
  }

  // ---------------------------------------------------------------------------
  // the emitted line

  /**
   * The printed line is a carriage return, the prefix, ` |`, the bar, `| `,
   * the percentage, `% ` and the suffix, each at its own offset, so the bar
   * can be read back from the line.
   */
  lemma LineLayout(iteration: int, total: int, percent: string, prefix: string, suffix: string,
                   length: int, fill: string, printEnd: string)
    requires total != 0
    ensures var r := Render(iteration, total, percent, prefix, suffix, length, fill, printEnd);
      r.Success? ==>
      var line := r.value.line;
      var bar := Bar(iteration, total, length, fill);
      var b := |prefix| + 3;
      var p := b + |bar| + 2;
      && |line| == p + |percent| + 2 + |suffix|
      && line[0] == '\r'
      && line[1..b - 2] == prefix
      && line[b - 2..b] == " |"
      && line[b..b + |bar|] == bar
      && line[b + |bar|..p] == "| "
      && line[p..p + |percent|] == percent
      && line[p + |percent|..p + |percent| + 2] == "% "
      && line[p + |percent| + 2..] == suffix
  {
  }

  /** The terminal gets the line and `print_end`, and one newline more exactly after the last iteration. */
  lemma OutputCompletes(iteration: int, total: int, percent: string, prefix: string, suffix: string,
                        length: int, fill: string, printEnd: string)
    ensures var r := Render(iteration, total, percent, prefix, suffix, length, fill, printEnd);
      r.Success? ==>
      var e := r.value;
      && (iteration == total ==> Output(e) == e.line + printEnd + "\n")
      && (iteration != total ==> Output(e) == e.line + printEnd)
  {
  }

  /**
   * Called with only `iteration`, `total` and the percentage, the bar has the
   * default 100 cells of the block character, and the line carries an empty
   * prefix and suffix.
   */
  lemma RenderDefaults(iteration: int, total: int, percent: string)
    requires 0 <= iteration <= total && FitsFloat(total) && total != 0
    ensures Render(iteration, total, percent).Success?
    ensures var bar := Bar(iteration, total, 100, "\U{2588}");
      && |bar| == 100
      && Render(iteration, total, percent).value.line == "\r |" + bar + "| " + percent + "% "
      && Render(iteration, total, percent).value.end == "\r"
      && (iteration == total ==> forall k :: 0 <= k < 100 ==> bar[k] == '\U{2588}')
  {
    BarCells(iteration, total, 100, "\U{2588}");
    BarFitsInRange(iteration, total, 100, "\U{2588}");
    if iteration == total {
      FilledLengthComplete(total, 100);
    }
  }

  /**
   * Within the range the bar describes, building it never overflows as long as
   * a full bar of `length` fills fits in a `str`.
   */
  lemma BarFitsInRange(iteration: int, total: int, length: int, fill: string)
    requires length >= 0 && length <= SsizeMax && length * |fill| <= SsizeMax
    requires 0 <= iteration <= total || total <= iteration <= 0
    requires total != 0
    ensures !BarOverflows(iteration, total, length, fill)
  {
    var n := FilledLength(iteration, total, length);
    FilledLengthBounds(iteration, total, length);
    MulMonotone(|fill|, n, length);
  }

  /**
   * A count that fits a double can still overflow the bar: with `total == 1`,
   * iteration `2^60` asks for `100 * 2^60` fills, more than a `Py_ssize_t`
   * holds, so the call raises `OverflowError` and prints nothing.
   */
  lemma RenderIndexOverflow(percent: string)
    ensures FilledLength(0x1000_0000_0000_0000, 1, 100) > SsizeMax
    ensures Render(0x1000_0000_0000_0000, 1, percent) == Failure(OverflowError)
  {
    assert FitsFloat(0x1000_0000_0000_0000);
    assert FilledLength(0x1000_0000_0000_0000, 1, 100) == 100 * 0x1000_0000_0000_0000;
  }
}
