/**
 * The statement text that `insert_snp500_symbols` (snp500_insert.py) sends to
 * the database: a fixed column list and one `%s` placeholder per symbol row.
 * Connecting, executing, committing and closing are not modelled; `Bind`
 * stands in for the positional substitution the driver performs on `%s`.
 */
module SymbolInsert {
  import opened Wrappers
  import opened Strings

  /** Why positional binding fails: a placeholder has no argument, or an argument has no placeholder. */
  datatype BindError = TooFewArguments | TooManyArguments

  /**
   * One row of the batch, in the order the docstring lists its values. Each
   * value is kept as the text the driver would bind for it.
   */
  datatype SymbolRow = SymbolRow(ticker: string, instrument: string, name: string, sector: string,
                                 currency: string, currentConstituent: string,
                                 created: string, lastUpdated: string)

  /** The values of a row, in column order. */
  function RowValues(row: SymbolRow): seq<string>
  {
    [row.ticker, row.instrument, row.name, row.sector,
     row.currency, row.currentConstituent, row.created, row.lastUpdated]
  }

  /** The columns of table `symbol` that the statement fills, in order. */
  const Columns: seq<string> :=
    ["ticker", "instrument", "name", "sector", "currency", "current_constituent", "created_date", "last_updated"]

  /**
   * `fields`: the parenthesised column list, the columns separated by `, `;
   * it spells `(ticker, instrument, ..., created_date, last_updated)`.
   */
  const Fields: string := "(" + Join(", ", Columns) + ")"

  /** `records_list_template`: `','.join(['%s'] * n)`, empty for no rows and `3n - 1` characters otherwise. */
  function Template(n: nat): (t: string)
    ensures |t| == if n == 0 then 0 else 3 * n - 1
  {
    RepeatTotalLength("%s", n);
    JoinLength(",", Repeat(["%s"], n));
    Join(",", Repeat(["%s"], n))
  }

  /** `sql_insert`: the fixed head `INSERT INTO symbol <fields> VALUES `, then the template for `n` rows. */
  function BuildInsert(n: nat): (sql: string)
    ensures var head := "INSERT INTO symbol " + Fields + " VALUES ";
      |sql| == |head| + |Template(n)| &&
      sql[..|head|] == head &&
      sql[|head|..] == Template(n)
  {
    "INSERT INTO symbol " + Fields + " VALUES " + Template(n)
  }

  /** The statement `insert_snp500_symbols` executes for the batch `symbols`: one placeholder per row. */
  function InsertStatement(symbols: seq<SymbolRow>): (sql: string)
    ensures PlaceholderCount(sql) == |symbols|
  {
    InsertPlaceholders(|symbols|);
    BuildInsert(|symbols|)
  }

  /** The number of `%s` placeholders, scanning left to right. */
  function PlaceholderCount(s: string): nat
  {
    if |s| < 2 then 0
    else if s[0] == '%' && s[1] == 's' then 1 + PlaceholderCount(s[2..])
    else PlaceholderCount(s[1..])
  }

  /**
   * Positional binding: each `%s`, left to right, is replaced by the next
   * argument; every other character is kept. Binding succeeds exactly when
   * there are as many arguments as placeholders, and reports which side ran
   * out otherwise.
   */
  function Bind(s: string, args: seq<string>): (r: Result<string, BindError>)
    ensures r.Success? <==> PlaceholderCount(s) == |args|
    ensures r == Failure(TooFewArguments) <==> PlaceholderCount(s) > |args|
    ensures r.Success? && |args| == 0 ==> r.value == s
  {
    if |s| < 2 then
      if |args| == 0 then Success(s) else Failure(TooManyArguments)
    else if s[0] == '%' && s[1] == 's' then
      if |args| == 0 then Failure(TooFewArguments)
      else match Bind(s[2..], args[1..])
        case Success(t) => Success(args[0] + t)
        case Failure(e) => Failure(e)
    else match Bind(s[1..], args)
      case Success(t) => Success([s[0]] + t)
      case Failure(e) => Failure(e)
  }

  // ---------------------------------------------------------------------------
  // The placeholder template

  /**
   * The template for `n` rows has `%s` at every offset `3i` and a comma
   * between consecutive placeholders.
   */
  lemma {:induction false} TemplateShape(n: nat)
    ensures forall k :: 0 <= k < |Template(n)| ==>
      Template(n)[k] == (if k % 3 == 0 then '%' else if k % 3 == 1 then 's' else ',')
  {
    if n == 0 {
      assert Repeat(["%s"], 0) == [];
    } else if n == 1 {
      assert Repeat(["%s"], 1) == ["%s"];
    } else {
      TemplateStep(n - 1);
      TemplateShape(n - 1);
      var t := Template(n - 1);
      forall k | 0 <= k < |Template(n)|
        ensures Template(n)[k] == (if k % 3 == 0 then '%' else if k % 3 == 1 then 's' else ',')
      {
        if k >= 3 {
          assert Template(n)[k] == t[k - 3];
          assert (k - 3) % 3 == k % 3;
        }
      }
    }
  }

  /** One more row puts `%s,` in front of the template. */
  lemma TemplateStep(n: nat)
    requires n >= 1
    ensures Template(n + 1) == "%s," + Template(n)
  {
    var parts := Repeat(["%s"], n + 1);
    assert parts == ["%s"] + Repeat(["%s"], n);
    assert parts[1..] == Repeat(["%s"], n);
  }

  /** The template holds exactly `n` placeholders and `n - 1` commas. */
  lemma {:induction false} TemplateCounts(n: nat)
    ensures PlaceholderCount(Template(n)) == n
    ensures Count(Template(n), ',') == if n == 0 then 0 else n - 1
  {
    if n == 0 {
      assert Repeat(["%s"], 0) == [];
    } else if n == 1 {
      assert Repeat(["%s"], 1) == ["%s"];
      assert Template(1) == "%s";
    } else {
      TemplateStep(n - 1);
      TemplateCounts(n - 1);
      var t := Template(n - 1);
      assert Template(n)[2..] == "," + t;
      assert ("," + t)[1..] == t;
      CountAppend("%s,", t, ',');
    }
  }

  // ---------------------------------------------------------------------------
  // The statement

  /** Placeholders in a concatenation add up when the left part does not end in `%`. */
  lemma {:induction false} PlaceholderCountAppend(a: string, b: string)
    requires |a| == 0 || a[|a| - 1] != '%'
    ensures PlaceholderCount(a + b) == PlaceholderCount(a) + PlaceholderCount(b)
  {
    if |a| == 0 {
      assert a + b == b;
    } else if |a| == 1 {
      assert (a + b)[1..] == b;
    } else if a[0] == '%' && a[1] == 's' {
      assert (a + b)[2..] == a[2..] + b;
      PlaceholderCountAppend(a[2..], b);
    } else {
      assert (a + b)[1..] == a[1..] + b;
      PlaceholderCountAppend(a[1..], b);
    }
  }

  /** Text without `%` holds no placeholder. */
  lemma {:induction false} NoPercentNoPlaceholder(s: string)
    requires '%' !in s
    ensures PlaceholderCount(s) == 0
  {
    if |s| >= 2 {
      assert s[0] != '%';
      NoPercentNoPlaceholder(s[1..]);
    }
  }

  /** The statement holds exactly one placeholder per row of the batch. */
  lemma InsertPlaceholders(n: nat)
    ensures PlaceholderCount(BuildInsert(n)) == n
  {
    var head := "INSERT INTO symbol " + Fields + " VALUES ";
    HeadHasNoPlaceholder();
    PlaceholderCountAppend(head, Template(n));
    TemplateCounts(n);
    assert BuildInsert(n) == head + Template(n);
  }

  /**
   * Executing the statement with one bound argument per row succeeds, and any
   * other number of arguments fails: each row binds to exactly one placeholder.
   */
  lemma InsertBindsEachRow(symbols: seq<SymbolRow>, args: seq<string>)
    ensures Bind(InsertStatement(symbols), args).Success? <==> |args| == |symbols|
  {
    InsertPlaceholders(|symbols|);
  }

  /** The statement text depends on how many rows there are, not on what they hold. */
  lemma InsertDependsOnCountOnly(a: seq<SymbolRow>, b: seq<SymbolRow>)
    ensures InsertStatement(a) == InsertStatement(b) <==> |a| == |b|
  {
    if InsertStatement(a) == InsertStatement(b) {
      TemplateShape(|a|);
      TemplateShape(|b|);
    }
  }

  /**
   * The column list spells `(ticker, instrument, name, sector, currency,
   * current_constituent, created_date, last_updated)`.
   */
  lemma FieldsSpelled()
    ensures Join(", ", Columns) == (("ticker" + ", ") + (("instrument" + ", ") + (("name" + ", ") + (("sector" + ", ")
                          + (("currency" + ", ") + (("current_constituent" + ", ") + (("created_date" + ", ")
                          + "last_updated")))))))
  {
    var c := Columns;
    assert Join(", ", c[7..]) == c[7];
    assert Join(", ", c[6..]) == c[6] + ", " + Join(", ", c[7..]) by {
      assert c[6..][1..] == c[7..];
    }
    assert Join(", ", c[5..]) == c[5] + ", " + Join(", ", c[6..]) by {
      assert c[5..][1..] == c[6..];
    }
    assert Join(", ", c[4..]) == c[4] + ", " + Join(", ", c[5..]) by {
      assert c[4..][1..] == c[5..];
    }
    assert Join(", ", c[3..]) == c[3] + ", " + Join(", ", c[4..]) by {
      assert c[3..][1..] == c[4..];
    }
    assert Join(", ", c[2..]) == c[2] + ", " + Join(", ", c[3..]) by {
      assert c[2..][1..] == c[3..];
    }
    assert Join(", ", c[1..]) == c[1] + ", " + Join(", ", c[2..]) by {
      assert c[1..][1..] == c[2..];
    }
    assert Join(", ", c[0..]) == c[0] + ", " + Join(", ", c[1..]) by {
      assert c[0..][1..] == c[1..];
    }
  }

  /** The column list names eight distinct columns, one per value of a row, in the row's order. */
  lemma FieldsMatchRows(row: SymbolRow)
    ensures |Columns| == |RowValues(row)| == 8
    ensures forall i, j :: 0 <= i < j < |Columns| ==> Columns[i] != Columns[j]
    ensures RowValues(row)[0] == row.ticker && Columns[0] == "ticker"
    ensures RowValues(row)[7] == row.lastUpdated && Columns[7] == "last_updated"
  {
  }

  /** No column name holds a `%`. */
  lemma ColumnsHaveNoPercent()
    ensures '%' !in Join(", ", Columns)
  {
    if '%' in Join(", ", Columns) {
      JoinMembers(", ", Columns, '%');
    }
  }

  /** The fixed head of the statement holds no placeholder. */
  lemma HeadHasNoPlaceholder()
    ensures PlaceholderCount("INSERT INTO symbol " + Fields + " VALUES ") == 0
  {
    assert '%' !in "INSERT INTO symbol " + Fields + " VALUES " by {
      ColumnsHaveNoPercent();
    }
    NoPercentNoPlaceholder("INSERT INTO symbol " + Fields + " VALUES ");
  }
}
