/**
 * The client side of the gears manager: how `getRegisteredGears` turns the
 * reply of the aggregation job into directory entries, and how
 * `getModuleInfo` reads the gears version out of `MODULE LIST`.
 *
 * The parsed JSON objects are the same values the job produces; a missing
 * property or array element (JavaScript's `undefined`) is `None`.
 */
module Client {
  import opened PyValues

  // ---------------------------------------------------------------------------
  // JavaScript string conversion
  // ---------------------------------------------------------------------------

  function DigitChar(d: nat): char
    requires d < 10
  {
    "0123456789"[d]
  }

  /** The decimal digits of `n`, most significant first, without leading zeros. */
  function Digits(n: nat): (r: string)
    ensures |r| > 0
    ensures forall i :: 0 <= i < |r| ==> '0' <= r[i] <= '9'
    ensures |r| > 1 ==> r[0] != '0'
    ensures n > 0 ==> r[0] != '0'
    decreases n
  {
    if n < 10 then [DigitChar(n)] else Digits(n / 10) + [DigitChar(n % 10)]
  }

  /** The value of a string of decimal digits. */
  function DigitsValue(s: string): int
    decreases |s|
  {
    if s == [] then 0 else DigitsValue(s[..|s| - 1]) * 10 + (s[|s| - 1] as int - '0' as int)
  }

  /** Reading the digits back gives the number. */
  lemma {:induction false} DigitsRoundTrip(n: nat)
    ensures DigitsValue(Digits(n)) == n
    decreases n
  {
    if n >= 10 {
      DigitsRoundTrip(n / 10);
      var s := Digits(n / 10) + [DigitChar(n % 10)];
      assert s[..|s| - 1] == Digits(n / 10);
    }
  }

  /** `String(i)` for an integer. */
  function Decimal(i: int): string {
    if i < 0 then "-" + Digits(-i) else Digits(i)
  }

  /**
   * `String(v)`: strings are themselves, `null` and `undefined` are spelled
   * out, arrays are joined with "," (empty text for null and undefined
   * elements) and objects print as `[object Object]`.
   */
  function JsText(v: Option<Value>): string {
    match v
    case None => "undefined"
    case Some(x) => ValueText(x)
  }

  function ValueText(x: Value): string
    decreases x, 1
  {
    match x
    case Null => "null"
    case Str(s) => s
    case Int(i) => Decimal(i)
    case List(xs) => JoinTexts(x, 0)
    case Dict(_) => "[object Object]"
  }

  /** `xs.slice(i).join(",")` of the items of the array `x`. */
  function JoinTexts(x: Value, i: nat): string
    requires x.List? && i <= |x.items|
    decreases x, 0, |x.items| - i
  {
    if i == |x.items| then ""
    else
      var t := if x.items[i].Null? then "" else ValueText(x.items[i]);
      if i + 1 == |x.items| then t else t + "," + JoinTexts(x, i + 1)
  }

  // ---------------------------------------------------------------------------
  // split("-")
  // ---------------------------------------------------------------------------

  /** `s.split(sep)` for a one-character separator: the pieces between separators. */
  function Split(s: string, sep: char): (r: seq<string>)
    ensures |r| > 0
    ensures forall i :: 0 <= i < |r| ==> sep !in r[i]
    decreases |s|
  {
    if s == [] then [""]
    else
      var rest := Split(s[1..], sep);
      if s[0] == sep then [""] + rest
      else [[s[0]] + rest[0]] + rest[1..]
  }

  /** `pieces.join(sep)`. */
  function Join(pieces: seq<string>, sep: char): string
    decreases |pieces|
  {
    if pieces == [] then ""
    else if |pieces| == 1 then pieces[0]
    else pieces[0] + [sep] + Join(pieces[1..], sep)
  }

  /** Joining the pieces again gives the string back. */
  lemma {:induction false} SplitJoin(s: string, sep: char)
    ensures Join(Split(s, sep), sep) == s
    decreases |s|
  {
    if s != [] {
      var rest := Split(s[1..], sep);
      SplitJoin(s[1..], sep);
      if s[0] == sep {
        assert ([""] + rest)[1..] == rest;
        assert s == [s[0]] + s[1..];
      } else {
        var first := [s[0]] + rest[0];
        if |rest| == 1 {
          assert Join(rest, sep) == rest[0];
        } else {
          assert ([first] + rest[1..])[1..] == rest[1..];
          assert Join(rest, sep) == rest[0] + [sep] + Join(rest[1..], sep);
        }
        assert s == [s[0]] + s[1..];
      }
    }
  }

  /** A string without the separator is one piece. */
  lemma {:induction false} SplitNoSep(s: string, sep: char)
    requires sep !in s
    ensures Split(s, sep) == [s]
    decreases |s|
  {
    if s != [] {
      SplitNoSep(s[1..], sep);
      assert s == [s[0]] + s[1..];
    }
  }

  /** `s.split(sep)[1]`: the second piece, or `undefined` without a separator. */
  function Second(s: string, sep: char): Option<string> {
    var pieces := Split(s, sep);
    if |pieces| > 1 then Some(pieces[1]) else None
  }

  /** For an id `a-b` whose parts have no `-`, the second piece is `b`. */
  lemma SecondOfPair(a: string, b: string)
    requires '-' !in a && '-' !in b
    ensures Second(a + "-" + b, '-') == Some(b)
  {
    var s := a + "-" + b;
    SplitJoin(s, '-');
    SplitShape(a, b, '-');
  }

  /** Splitting `a sep b` when neither part contains `sep`. */
  lemma {:induction false} SplitShape(a: string, b: string, sep: char)
    requires sep !in a && sep !in b
    ensures Split(a + [sep] + b, sep) == [a, b]
    decreases |a|
  {
    if a == [] {
      assert [] + [sep] + b == [sep] + b;
      assert ([sep] + b)[1..] == b;
      SplitNoSep(b, sep);
    } else {
      assert (a + [sep] + b)[1..] == a[1..] + [sep] + b;
      SplitShape(a[1..], b, sep);
      assert [a[0]] + a[1..] == a;
    }
  }

  // ---------------------------------------------------------------------------
  // getRegisteredGears
  // ---------------------------------------------------------------------------

  /** Property access `o.name` on a parsed value; `null.name` throws TypeError. */
  function Prop(o: Value, name: string): Result<Option<Value>> {
    match o
    case Null => Err(TypeError)
    case Dict(m) => Ok(if Str(name) in m then Some(m[Str(name)]) else None)
    case _ => Ok(None)
  }

  /** A directory entry of a registration; its `type` field is always the `ItemType` enumeration itself. */
  datatype Entry = Entry(key: string, id: string)

  /** The text `split("-")[1]` contributes to the key: the second piece, or "undefined". */
  function SuffixText(id: string): string {
    match Second(id, '-')
    case None => "undefined"
    case Some(p) => p
  }

  /**
   * The entry for one parsed record: `key` is the reader, ":" and the piece
   * of the id after its first "-". Calling `split` throws unless the id is a string.
   */
  function ToEntry(o: Value): Result<Entry> {
    var reader :- Prop(o, "reader");
    var id :- Prop(o, "id");
    if id.Some? && id.value.Str? then Ok(Entry(JsText(reader) + ":" + SuffixText(id.value.s), id.value.s))
    else Err(TypeError)
  }

  /** A record with a string reader and an id `execution-sequence` gets the key `reader:sequence`. */
  lemma EntryKey(o: Value, reader: string, execution: string, sequence: string)
    requires o.Dict? && o.entries.Keys >= {Str("reader"), Str("id")}
    requires o.entries[Str("reader")] == Str(reader)
    requires o.entries[Str("id")] == Str(execution + "-" + sequence)
    requires '-' !in execution && '-' !in sequence
    ensures ToEntry(o) == Ok(Entry(reader + ":" + sequence, execution + "-" + sequence))
  {
    SecondOfPair(execution, sequence);
  }

  /** What `getRegisteredGears` resolves with for the job's reply `result`: the first record that throws aborts it. */
  function Listing(result: seq<seq<Value>>): Result<seq<Entry>> {
    MapAll(Concat(result), ToEntry)
  }

  /**
   * The listing succeeds exactly when every record of every reply entry
   * converts; then it holds one entry per record, in reply order, each the
   * record's own entry.
   */
  lemma ListingShape(result: seq<seq<Value>>)
    ensures Listing(result).Err? ==> exists i :: 0 <= i < |Concat(result)| && ToEntry(Concat(result)[i]).Err?
    ensures Listing(result).Ok? ==>
              && |Listing(result).value| == |Concat(result)|
              && forall i :: 0 <= i < |Concat(result)| ==> Ok(Listing(result).value[i]) == ToEntry(Concat(result)[i])
  {
    var records := Concat(result);
    var f: Value -> Result<Entry> := ToEntry;
    assert Listing(result) == MapAll(records, f);
    MapAllShape(records, f);
    if Listing(result).Ok? {
      forall i | 0 <= i < |records|
        ensures ToEntry(records[i]).Ok? && Ok(Listing(result).value[i]) == ToEntry(records[i])
      {
        assert f(records[i]) == ToEntry(records[i]);
      }
    } else {
      var i :| 0 <= i < |records| && !f(records[i]).Ok?;
      assert ToEntry(records[i]).Err?;
    }
  }

  /** `getRegisteredGears`' loop over the reply entries, pushing onto `retVal`. */
  method GetRegisteredGears(result: seq<seq<Value>>) returns (r: Result<seq<Entry>>)
    ensures r == Listing(result)
  {
    var retVal: seq<Entry> := [];
    var n := 0;
    while n < |result|
      invariant 0 <= n <= |result|
      invariant MapAll(Concat(result[..n]), ToEntry) == Ok(retVal)
    {
      assert result[..n + 1][..n] == result[..n];
      assert Concat(result[..n + 1]) == Concat(result[..n]) + result[n];
      var entry := result[n];
      MapAllAppend(Concat(result[..n]), entry, ToEntry);
      if |entry| != 0 {
        var pushed := PushEach(entry, ToEntry, retVal);
        if pushed.Err? {
          ListingAborts(result, n);
          return pushed;
        }
        retVal := pushed.value;
      } else {
        assert retVal + [] == retVal;
      }
      n := n + 1;
    }
    assert result[..n] == result;
    return Ok(retVal);
  }

  /** A reply entry whose records throw ends the whole listing with that error. */
  lemma ListingAborts(result: seq<seq<Value>>, n: nat)
    requires n < |result|
    requires MapAll(Concat(result[..n]) + result[n], ToEntry).Err?
    ensures Listing(result) == MapAll(Concat(result[..n]) + result[n], ToEntry)
  {
    var part := Concat(result[..n]) + result[n];
    assert Concat(result)[..|part|] == part by {
      ConcatPrefix(result, n + 1);
      assert result[..n + 1][..n] == result[..n];
      assert Concat(result[..n + 1]) == part;
    }
    MapAllAbortsFrom(Concat(result), ToEntry, |part|);
  }

  // ---------------------------------------------------------------------------
  // getModuleInfo
  // ---------------------------------------------------------------------------

  /** `row[i]`, or `undefined` past the end. */
  function Elem(row: seq<Value>, i: nat): Option<Value> {
    if i < |row| then Some(row[i]) else None
  }

  /**
   * `v == "rg"` with JavaScript's loose equality: a string compares as
   * itself, an array by its joined text, a number by the numeric value of
   * "rg", which is NaN; null, undefined and objects never equal it.
   */
  predicate LooseEqualsRg(v: Option<Value>) {
    v.Some? && (v.value.Str? || v.value.List?) && ValueText(v.value) == "rg"
  }

  /** The row of `MODULE LIST` that describes the gears module. */
  predicate IsGearsRow(row: seq<Value>) {
    LooseEqualsRg(Elem(row, 1))
  }

  /** The text resolved for a gears row: `(v` and its version field `row[3]`, then `)`. */
  function VersionText(row: seq<Value>): string {
    "(v" + JsText(Elem(row, 3)) + ")"
  }

  const NoGear := "(No gear)"

  /** What `getModuleInfo` resolves with: the version of the first gears row, or "(No gear)". */
  function ModuleInfo(rows: seq<seq<Value>>): string
    decreases |rows|
  {
    if rows == [] then NoGear
    else if IsGearsRow(rows[0]) then VersionText(rows[0])
    else ModuleInfo(rows[1..])
  }

  /**
   * "(No gear)" comes back exactly when no row is the gears module; otherwise
   * the answer is the version text of the first gears row.
   */
  lemma {:induction false} ModuleInfoShape(rows: seq<seq<Value>>)
    ensures ModuleInfo(rows) == NoGear <==> forall i :: 0 <= i < |rows| ==> !IsGearsRow(rows[i])
    ensures forall i :: 0 <= i < |rows| && IsGearsRow(rows[i]) && (forall j :: 0 <= j < i ==> !IsGearsRow(rows[j])) ==>
              ModuleInfo(rows) == VersionText(rows[i])
    decreases |rows|
  {
    if rows != [] {
      ModuleInfoShape(rows[1..]);
      assert VersionText(rows[0])[1] == 'v' != NoGear[1];
      forall i | 0 <= i < |rows| && IsGearsRow(rows[i]) && (forall j :: 0 <= j < i ==> !IsGearsRow(rows[j]))
        ensures ModuleInfo(rows) == VersionText(rows[i])
      {
        if i > 0 {
          assert !IsGearsRow(rows[0]);
          assert rows[1..][i - 1] == rows[i];
          assert forall j :: 0 <= j < i - 1 ==> rows[1..][j] == rows[j + 1];
        }
      }
      if forall i :: 1 <= i < |rows| ==> !IsGearsRow(rows[i]) {
        assert forall i :: 0 <= i < |rows[1..]| ==> rows[1..][i] == rows[i + 1];
      }
      if forall i :: 0 <= i < |rows[1..]| ==> !IsGearsRow(rows[1..][i]) {
        assert forall i :: 1 <= i < |rows| ==> rows[i] == rows[1..][i - 1];
      }
    }
  }

  /**
   * `getModuleInfo`'s scan: every gears row sets the flag and resolves the
   * promise, but only the first resolution counts; without a gears row the
   * promise resolves with "(No gear)" after the loop.
   */
  method GetModuleInfo(rows: seq<seq<Value>>) returns (r: string)
    ensures r == ModuleInfo(rows)
  {
    var isGearInstalled := false;
    var resolved: Option<string> := None;
    var i := 0;
    while i < |rows|
      invariant 0 <= i <= |rows|
      invariant isGearInstalled <==> resolved.Some?
      invariant resolved.Some? ==> resolved.value == ModuleInfo(rows)
      invariant resolved.None? ==> ModuleInfo(rows) == ModuleInfo(rows[i..])
    {
      var it := rows[i];
      if LooseEqualsRg(Elem(it, 1)) {
        isGearInstalled := true;
        if resolved.None? {
          resolved := Some(VersionText(it));
        }
      }
      assert rows[i..][1..] == rows[i + 1..];
      i := i + 1;
    }
    if !isGearInstalled {
      resolved := Some(NoGear);
    }
    return resolved.value;
  }
}
