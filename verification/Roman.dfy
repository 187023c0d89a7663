/** The greedy Roman-numeral acceptor of similarity/identity.py, for numbers of any size. */
module Roman {
  datatype Row = Row(amount: nat, glyph: string)

  // ---------- spelling and reading with any table ----------

  function Repeat(glyph: string, n: nat): string {
    if n == 0 then "" else glyph + Repeat(glyph, n - 1)
  }

  ghost predicate Usable(table: seq<Row>) {
    forall k :: 0 <= k < |table| ==> table[k].amount > 0 && table[k].glyph != ""
  }

  /** The spelling of a number: each row as often as it goes in. */
  ghost function Canonical(v: nat, table: seq<Row>): string
    requires Usable(table)
  {
    if table == [] then ""
    else Repeat(table[0].glyph, v / table[0].amount) + Canonical(v % table[0].amount, table[1..])
  }

  /** Greedy reading: the value taken, each row as often as it is found, and what is left. */
  ghost function Greedy(token: string, table: seq<Row>): (nat, string)
    requires Usable(table)
    decreases |token|, |table|
  {
    if table == [] then (0, token)
    else if table[0].glyph <= token then
      var (v, rest) := Greedy(token[|table[0].glyph|..], table);
      (v + table[0].amount, rest)
    else Greedy(token, table[1..])
  }

  /** No row can start what later rows spell: its first letter starts no later row, or its
      second letter is in no later row. */
  ghost predicate Separate(table: seq<Row>) {
    forall k :: 0 <= k < |table| ==> LeadsOnce(table[k].glyph, table[k + 1..])
  }

  ghost predicate LeadsOnce(glyph: string, later: seq<Row>) {
    glyph != "" &&
    if |glyph| == 1 then forall row :: row in later ==> row.glyph != "" && row.glyph[0] != glyph[0]
    else forall row :: row in later ==> row.glyph != "" && glyph[1] !in row.glyph
  }

  lemma {:induction false} RepeatAvoids(glyph: string, c: char, first: bool, n: nat, rest: string)
    requires glyph != ""
    requires if first then glyph[0] != c && (rest == "" || rest[0] != c) else c !in glyph && c !in rest
    ensures var s := Repeat(glyph, n) + rest;
            if first then s == "" || s[0] != c else c !in s
  {
    if n == 0 {
      assert Repeat(glyph, n) + rest == rest;
    } else {
      RepeatAvoids(glyph, c, first, n - 1, rest);
      assert Repeat(glyph, n) + rest == glyph + (Repeat(glyph, n - 1) + rest);
    }
  }

  /** A letter that no row has (or starts with) is not in (or does not start) a spelling. */
  lemma {:induction false} CanonicalAvoids(v: nat, table: seq<Row>, c: char, first: bool)
    requires Usable(table)
    requires forall row :: row in table ==> row.glyph != "" && if first then row.glyph[0] != c else c !in row.glyph
    ensures if first then Canonical(v, table) == "" || Canonical(v, table)[0] != c else c !in Canonical(v, table)
    decreases |table|
  {
    if table != [] {
      assert table[0] in table;
      CanonicalAvoids(v % table[0].amount, table[1..], c, first);
      RepeatAvoids(table[0].glyph, c, first, v / table[0].amount, Canonical(v % table[0].amount, table[1..]));
    }
  }

  lemma NotAgain(v: nat, glyph: string, later: seq<Row>)
    requires Usable(later) && LeadsOnce(glyph, later)
    ensures !(glyph <= Canonical(v, later))
  {
    if |glyph| == 1 {
      CanonicalAvoids(v, later, glyph[0], true);
    } else {
      CanonicalAvoids(v, later, glyph[1], false);
    }
  }

  lemma GreedyTakes(g: string, tail: string, table: seq<Row>)
    requires Usable(table) && table != [] && table[0].glyph == g
    ensures Greedy(g + tail, table) == (Greedy(tail, table).0 + table[0].amount, Greedy(tail, table).1)
  {
    assert (g + tail)[|g|..] == tail;
  }

  lemma OnceMore(n: nat, a: nat)
    ensures n * a == (n - 1) * a + a
  {
  }

  lemma {:induction false} GreedyRepeat(table: seq<Row>, n: nat, rest: string)
    requires Usable(table) && table != [] && !(table[0].glyph <= rest)
    ensures Greedy(Repeat(table[0].glyph, n) + rest, table)
         == (n * table[0].amount + Greedy(rest, table[1..]).0, Greedy(rest, table[1..]).1)
  {
    var g := table[0].glyph;
    if n == 0 {
      assert Repeat(g, 0) + rest == rest;
    } else {
      var tail := Repeat(g, n - 1) + rest;
      assert Repeat(g, n) + rest == g + tail;
      GreedyRepeat(table, n - 1, rest);
      GreedyTakes(g, tail, table);
      OnceMore(n, table[0].amount);
    }
  }

  lemma DivMod(v: nat, a: nat)
    requires a > 0
    ensures v == v / a * a + v % a && (a == 1 ==> v % a == 0)
  {
  }

  /** The first row is read as often as it was written, and the rest is read by later rows. */
  lemma TakenAs(v: nat, q: nat, r: nat, table: seq<Row>, rest: string)
    requires Usable(table) && table != [] && v == q * table[0].amount + r
    requires !(table[0].glyph <= rest) && Greedy(rest, table[1..]) == (r, "")
    ensures Greedy(Repeat(table[0].glyph, q) + rest, table) == (v, "")
  {
    GreedyRepeat(table, q, rest);
  }

  lemma CanonicalHead(v: nat, table: seq<Row>) returns (q: nat, r: nat)
    requires Usable(table) && table != []
    ensures v == q * table[0].amount + r && r < table[0].amount
    ensures Canonical(v, table) == Repeat(table[0].glyph, q) + Canonical(r, table[1..])
  {
    q, r := v / table[0].amount, v % table[0].amount;
    DivMod(v, table[0].amount);
  }

  /** Greedy reading of a spelling takes all of it and gives the number back. */
  lemma {:induction false} GreedyOfCanonical(v: nat, table: seq<Row>)
    requires Usable(table) && Separate(table)
    requires if table == [] then v == 0 else table[|table| - 1].amount == 1
    ensures Greedy(Canonical(v, table), table) == (v, "")
    decreases |table|
  {
    if table != [] {
      var row, later := table[0], table[1..];
      assert LeadsOnce(row.glyph, later);
      SeparateTail(table);
      hide Canonical, Greedy, Repeat, Separate, LeadsOnce;
      var q, r := CanonicalHead(v, table);
      NotAgain(r, row.glyph, later);
      GreedyOfCanonical(r, later);
      TakenAs(v, q, r, table, Canonical(r, later));
    }
  }

  lemma SeparateTail(table: seq<Row>)
    requires table != [] && Separate(table)
    ensures Separate(table[1..])
  {
  }

  // ---------- the table ----------

  function Amount(k: nat): (a: nat)
    requires k < 13
    ensures a > 0
  {
    match k
    case 0 => 1000 case 1 => 900 case 2 => 500 case 3 => 400
    case 4 => 100 case 5 => 90 case 6 => 50 case 7 => 40
    case 8 => 10 case 9 => 9 case 10 => 5 case 11 => 4
    case _ => 1
  }

  function Glyph(k: nat): (g: string)
    requires k < 13
    ensures 1 <= |g| <= 2
  {
    match k
    case 0 => "m" case 1 => "cm" case 2 => "d" case 3 => "cd"
    case 4 => "c" case 5 => "xc" case 6 => "l" case 7 => "xl"
    case 8 => "x" case 9 => "ix" case 10 => "v" case 11 => "iv"
    case _ => "i"
  }

  function Table(): (table: seq<Row>)
    ensures |table| == 13 && forall k :: 0 <= k < 13 ==> table[k] == Row(Amount(k), Glyph(k))
  {
    seq(13, k requires 0 <= k < 13 => Row(Amount(k), Glyph(k)))
  }

  lemma LaterRows(k: nat)
    requires k < 13
    ensures if |Glyph(k)| == 1 then forall j :: k < j < 13 ==> Glyph(j)[0] != Glyph(k)[0]
            else forall j :: k < j < 13 ==> Glyph(k)[1] !in Glyph(j)
  {
  }

  lemma TableSeparate()
    ensures Separate(Table())
  {
    forall k | 0 <= k < 13 ensures LeadsOnce(Table()[k].glyph, Table()[k + 1..]) {
      RowLeadsOnce(k);
    }
  }

  lemma RowLeadsOnce(k: nat)
    requires k < 13
    ensures LeadsOnce(Glyph(k), Table()[k + 1..])
  {
    LaterRows(k);
    hide Glyph;
    forall row | row in Table()[k + 1..] ensures exists j :: k < j < 13 && row.glyph == Glyph(j) {
      var j :| 0 <= j < |Table()[k + 1..]| && Table()[k + 1..][j] == row;
      assert row.glyph == Glyph(k + 1 + j);
    }
  }

  lemma TableUsable()
    ensures |Table()| == 13 && Usable(Table()) && Table()[12].amount == 1
  {
  }

  /** `_is_roman_numeral`, as a function of the token. */
  ghost predicate IsRoman(token: string) {
    TableUsable();
    Greedy(token, Table()).1 == "" && Canonical(Greedy(token, Table()).0, Table()) == token
  }

  // ---------- the schoolbook spelling ----------

  function Place(d: nat, one: string, five: string, ten: string): string
    requires d < 10
  {
    match d
    case 0 => "" case 1 => one case 2 => one + one case 3 => one + one + one case 4 => one + five
    case 5 => five case 6 => five + one case 7 => five + one + one case 8 => five + one + one + one
    case _ => one + ten
  }

  /** One decimal digit at a time, with as many thousands as it takes. */
  function Numeral(n: nat): string {
    Repeat("m", n / 1000)
    + (Place(n / 100 % 10, "c", "d", "m") + (Place(n / 10 % 10, "x", "l", "c") + Place(n % 10, "i", "v", "x")))
  }

  lemma RepeatFew(g: string)
    ensures Repeat(g, 0) == "" && Repeat(g, 1) == g && Repeat(g, 2) == g + g && Repeat(g, 3) == g + g + g
  {
  }

  /** How often each of a decade's four rows is taken, for a decimal digit. */
  ghost predicate Counts(d: nat, nines: nat, fives: nat, fours: nat, ones: nat) {
    && d < 10
    && nines == (if d == 9 then 1 else 0)
    && fives == (if 5 <= d < 9 then 1 else 0)
    && fours == (if d == 4 then 1 else 0)
    && ones == (if d % 5 == 4 then 0 else d % 5)
  }

  lemma Assoc4(a: string, b: string, c: string, o: string, rest: string)
    ensures a + (b + (c + (o + rest))) == a + (b + (c + o)) + rest
  {
  }

  lemma Assoc3(a: string, b: string, rest: string)
    ensures a + (b + rest) == a + b + rest
  {
  }

  lemma BlankFront(c: string, o: string)
    ensures "" + ("" + (c + o)) == c + o
  {
  }

  lemma BlankMiddle(a: string, b: string, o: string)
    ensures a + (b + ("" + o)) == a + (b + o)
  {
    assert "" + o == o;
  }

  lemma LowDigit(d: nat, one: string, five: string, ten: string)
    requires d < 5
    ensures Place(d, one, five, ten)
         == Repeat(one + ten, 0) + (Repeat(five, 0) + (Repeat(one + five, if d == 4 then 1 else 0)
            + Repeat(one, if d == 4 then 0 else d)))
  {
    RepeatFew(one + five);
    RepeatFew(one);
    BlankFront(Repeat(one + five, if d == 4 then 1 else 0), Repeat(one, if d == 4 then 0 else d));
  }

  lemma HighDigit(d: nat, one: string, five: string, ten: string)
    requires 5 <= d < 10
    ensures Place(d, one, five, ten)
         == Repeat(one + ten, if d == 9 then 1 else 0) + (Repeat(five, if d == 9 then 0 else 1) + (Repeat(one + five, 0)
            + Repeat(one, if d == 9 then 0 else d - 5)))
  {
    RepeatFew(one + ten);
    RepeatFew(five);
    RepeatFew(one);
    BlankMiddle(Repeat(one + ten, if d == 9 then 1 else 0), Repeat(five, if d == 9 then 0 else 1),
                Repeat(one, if d == 9 then 0 else d - 5));
  }

  /** The four counts spell the digit. */
  lemma Spelled(d: nat, nines: nat, fives: nat, fours: nat, ones: nat, rest: string,
      one: string, five: string, ten: string)
    requires Counts(d, nines, fives, fours, ones)
    ensures Repeat(one + ten, nines) + (Repeat(five, fives) + (Repeat(one + five, fours) + (Repeat(one, ones) + rest)))
         == Place(d, one, five, ten) + rest
  {
    hide Repeat, Place;
    Assoc4(Repeat(one + ten, nines), Repeat(five, fives), Repeat(one + five, fours), Repeat(one, ones), rest);
    if d < 5 {
      LowDigit(d, one, five, ten);
    } else {
      HighDigit(d, one, five, ten);
    }
  }

  lemma Step(v: nat, k: nat)
    requires k < 13
    ensures Canonical(v, Table()[k..]) == Repeat(Glyph(k), v / Amount(k)) + Canonical(v % Amount(k), Table()[k + 1..])
  {
    assert Table()[k..][1..] == Table()[k + 1..];
  }

  /** Four rows in a row. */
  lemma FourSteps(k: nat, v: nat, r: nat, r5: nat, r4: nat, r1: nat, nines: nat, fives: nat, fours: nat, ones: nat)
    requires k + 4 <= 13
    requires nines == v / Amount(k) && r == v % Amount(k)
    requires fives == r / Amount(k + 1) && r5 == r % Amount(k + 1)
    requires fours == r5 / Amount(k + 2) && r4 == r5 % Amount(k + 2)
    requires ones == r4 / Amount(k + 3) && r1 == r4 % Amount(k + 3)
    ensures Canonical(v, Table()[k..])
         == Repeat(Glyph(k), nines) + (Repeat(Glyph(k + 1), fives) + (Repeat(Glyph(k + 2), fours)
            + (Repeat(Glyph(k + 3), ones) + Canonical(r1, Table()[k + 4..]))))
  {
    Step(v, k);
    Step(r, k + 1);
    Step(r5, k + 2);
    Step(r4, k + 3);
  }

  lemma CountsHundreds(v: nat)
    requires v < 1000
    ensures var r := v % 900; var r5 := r % 500; var r4 := r5 % 400;
            Counts(v / 100, v / 900, r / 500, r5 / 400, r4 / 100) && r4 % 100 == v % 100
  {
    var d := v / 100;
    assert v / 900 == (if d == 9 then 1 else 0) && v % 900 == v - 900 * (if d == 9 then 1 else 0);
    CountsHundredsBelow(v % 900, if d == 9 then 0 else d, v % 100);
  }

  lemma CountsHundredsBelow(r: nat, d: nat, e: nat)
    requires r == 100 * d + e && d < 9 && e < 100
    ensures r / 500 == (if d >= 5 then 1 else 0) && r % 500 / 400 == (if d == 4 then 1 else 0)
    ensures var r4 := r % 500 % 400; r4 / 100 == (if d == 4 then 0 else d % 5) && r4 % 100 == e
  {
    var r5 := if d >= 5 then r - 500 else r;
    assert r % 500 == r5;
    var r4 := if d == 4 then e else r5;
    assert r5 % 400 == r4;
  }

  lemma CountsTens(v: nat)
    requires v < 100
    ensures var r := v % 90; var r5 := r % 50; var r4 := r5 % 40;
            Counts(v / 10, v / 90, r / 50, r5 / 40, r4 / 10) && r4 % 10 == v % 10
  {
    var d := v / 10;
    assert v / 90 == (if d == 9 then 1 else 0) && v % 90 == v - 90 * (if d == 9 then 1 else 0);
    CountsTensBelow(v % 90, if d == 9 then 0 else d, v % 10);
  }

  lemma CountsTensBelow(r: nat, d: nat, e: nat)
    requires r == 10 * d + e && d < 9 && e < 10
    ensures r / 50 == (if d >= 5 then 1 else 0) && r % 50 / 40 == (if d == 4 then 1 else 0)
    ensures var r4 := r % 50 % 40; r4 / 10 == (if d == 4 then 0 else d % 5) && r4 % 10 == e
  {
    var r5 := if d >= 5 then r - 50 else r;
    assert r % 50 == r5;
    var r4 := if d == 4 then e else r5;
    assert r5 % 40 == r4;
  }

  /** Four rows of the table spell one decimal digit. */
  lemma Decade(k: nat, v: nat, r: nat, r5: nat, r4: nat, r1: nat, nines: nat, fives: nat, fours: nat, ones: nat,
               d: nat, one: string, five: string, ten: string)
    requires k + 4 <= 13
    requires nines == v / Amount(k) && r == v % Amount(k)
    requires fives == r / Amount(k + 1) && r5 == r % Amount(k + 1)
    requires fours == r5 / Amount(k + 2) && r4 == r5 % Amount(k + 2)
    requires ones == r4 / Amount(k + 3) && r1 == r4 % Amount(k + 3)
    requires Counts(d, nines, fives, fours, ones)
    requires Glyph(k) == one + ten && Glyph(k + 1) == five && Glyph(k + 2) == one + five && Glyph(k + 3) == one
    ensures Canonical(v, Table()[k..]) == Place(d, one, five, ten) + Canonical(r1, Table()[k + 4..])
  {
    FourSteps(k, v, r, r5, r4, r1, nines, fives, fours, ones);
    Spelled(d, nines, fives, fours, ones, Canonical(r1, Table()[k + 4..]), one, five, ten);
  }

  lemma Hundreds(v: nat)
    requires v < 1000
    ensures Canonical(v, Table()[1..]) == Place(v / 100, "c", "d", "m") + Canonical(v % 100, Table()[5..])
  {
    CountsHundreds(v);
    var r := v % 900;
    var r5 := r % 500;
    var r4 := r5 % 400;
    Decade(1, v, r, r5, r4, r4 % 100, v / 900, r / 500, r5 / 400, r4 / 100, v / 100, "c", "d", "m");
  }

  lemma Tens(v: nat)
    requires v < 100
    ensures Canonical(v, Table()[5..]) == Place(v / 10, "x", "l", "c") + Canonical(v % 10, Table()[9..])
  {
    CountsTens(v);
    var r := v % 90;
    var r5 := r % 50;
    var r4 := r5 % 40;
    Decade(5, v, r, r5, r4, r4 % 10, v / 90, r / 50, r5 / 40, r4 / 10, v / 10, "x", "l", "c");
  }

  lemma CountsOnes(v: nat)
    requires v < 10
    ensures var r := v % 9; var r5 := r % 5; var r4 := r5 % 4;
            Counts(v, v / 9, r / 5, r5 / 4, r4 / 1) && r4 / 1 == r4 && r4 % 1 == 0
  {
    var r := if v == 9 then 0 else v;
    assert v % 9 == r && v / 9 == if v == 9 then 1 else 0;
    var r5 := if 5 <= r then r - 5 else r;
    assert r % 5 == r5 && r / 5 == if 5 <= r then 1 else 0;
    assert r5 % 4 == (if v == 4 then 0 else r5) && r5 / 4 == if v == 4 then 1 else 0;
  }

  lemma NothingLeft()
    ensures Canonical(0, Table()[13..]) == ""
  {
    assert Table()[13..] == [];
  }

  lemma Ones(v: nat)
    requires v < 10
    ensures Canonical(v, Table()[9..]) == Place(v, "i", "v", "x")
  {
    hide Canonical, Repeat, Place, Table;
    CountsOnes(v);
    var r := v % 9;
    var r5 := r % 5;
    var r4 := r5 % 4;
    Decade(9, v, r, r5, r4, 0, v / 9, r / 5, r5 / 4, r4 / 1, v, "i", "v", "x");
    NothingLeft();
  }

  lemma DigitsOf(n: nat)
    ensures n % 1000 / 100 == n / 100 % 10
    ensures n % 1000 % 100 / 10 == n / 10 % 10
    ensures n % 1000 % 100 % 10 == n % 10
  {
    var q, h, t, o := n / 1000, n % 1000 / 100, n % 1000 % 100 / 10, n % 1000 % 100 % 10;
    assert n == 1000 * q + 100 * h + 10 * t + o;
    assert n / 100 == 10 * q + h;
    assert n / 10 == 100 * q + 10 * h + t;
  }

  /** The table spells every number the schoolbook way. */
  lemma CanonicalIsNumeral(n: nat)
    ensures Canonical(n, Table()) == Numeral(n)
  {
    assert Table()[0..] == Table();
    Step(n, 0);
    Hundreds(n % 1000);
    Tens(n % 1000 % 100);
    Ones(n % 1000 % 100 % 10);
    DigitsOf(n);
  }

  /** The acceptor takes exactly the numerals, of numbers of any size. */
  lemma AcceptsExactlyNumerals(token: string)
    ensures IsRoman(token) <==> exists n: nat :: token == Numeral(n)
  {
    TableUsable();
    TableSeparate();
    if IsRoman(token) {
      CanonicalIsNumeral(Greedy(token, Table()).0);
      assert token == Numeral(Greedy(token, Table()).0);
    }
    forall n: nat | token == Numeral(n) ensures IsRoman(token) {
      CanonicalIsNumeral(n);
      GreedyOfCanonical(n, Table());
    }
  }

  /** Two numerals are the same text only when they are the same number. */
  lemma NumeralsDiffer(m: nat, n: nat)
    ensures Numeral(m) == Numeral(n) <==> m == n
  {
    TableUsable();
    TableSeparate();
    CanonicalIsNumeral(m);
    CanonicalIsNumeral(n);
    GreedyOfCanonical(m, Table());
    GreedyOfCanonical(n, Table());
  }

  /** `_is_roman_numeral`: both loops over the table. */
  method IsRomanNumeral(token: string) returns (accepted: bool)
    ensures accepted <==> exists n: nat :: token == Numeral(n)
  {
    AcceptsExactlyNumerals(token);
    TableUsable();
    var value, rest := ReadGreedily(token, Table());
    if rest != "" {
      return false;
    }
    var canonical := Spell(value, Table());
    accepted := canonical == token;
  }

  method ReadGreedily(token: string, table: seq<Row>) returns (value: nat, rest: string)
    requires Usable(table)
    ensures (value, rest) == Greedy(token, table)
  {
    value, rest := 0, token;
    assert table[0..] == table;
    for k := 0 to |table|
      invariant Greedy(token, table) == (value + Greedy(rest, table[k..]).0, Greedy(rest, table[k..]).1)
    {
      while table[k].glyph <= rest
        invariant Greedy(token, table) == (value + Greedy(rest, table[k..]).0, Greedy(rest, table[k..]).1)
        decreases |rest|
      {
        value := value + table[k].amount;
        rest := rest[|table[k].glyph|..];
      }
      assert table[k..][1..] == table[k + 1..];
    }
  }

  method Spell(number: nat, table: seq<Row>) returns (canonical: string)
    requires Usable(table)
    ensures canonical == Canonical(number, table)
  {
    canonical := "";
    var value: nat := number;
    assert table[0..] == table;
    for k := 0 to |table|
      invariant canonical + Canonical(value, table[k..]) == Canonical(number, table)
    {
      var some := Repeat(table[k].glyph, value / table[k].amount);
      assert table[k..][1..] == table[k + 1..];
      Assoc3(canonical, some, Canonical(value % table[k].amount, table[k + 1..]));
      canonical, value := canonical + some, value % table[k].amount;
    }
    assert canonical + "" == canonical;
  }
}
