/** Shared vocabulary: identifiers, instants, faults, and sums over maps. */
module Prelude {
  type Id = string

  /** Nanoseconds since midnight, 1 January of year 0 (UTC, proleptic Gregorian). */
  type Instant = nat

  const NANOS_PER_SECOND: nat := 1_000_000_000
  const SECOND: nat := NANOS_PER_SECOND
  const MINUTE: nat := 60 * SECOND
  const HOUR: nat := 60 * MINUTE
  const DAY: nat := 24 * HOUR

  datatype Option<+T> = None | Some(value: T)

  datatype Kind = Invalid | Forbidden | NotFound | Conflict | Internal

  datatype Fault = Fault(kind: Kind, code: string)

  datatype Result<+T> = Ok(value: T) | Err(fault: Fault)

  const VERSION_CONFLICT := Fault(Conflict, "version_conflict")
  const NOT_FOUND := Fault(NotFound, "not_found")
  const CONSTRAINT := Fault(Conflict, "unique_conflict")
  const RELATION_MISSING := Fault(Conflict, "relationship_conflict")
  const WRITE_FAILED := Fault(Internal, "database_operation_failed")

  /** White space as unicode.IsSpace knows it. */
  predicate IsSpace(c: char) {
    || c in "\t\n\r \U{000B}\U{000C}\U{0085}\U{00A0}\U{1680}\U{2028}\U{2029}\U{202F}\U{205F}\U{3000}"
    || '\U{2000}' <= c <= '\U{200A}'
  }

  /** Nothing is left of the text once it is trimmed. */
  predicate Blank(text: string) {
    forall i :: 0 <= i < |text| ==> IsSpace(text[i])
  }

  function TrimLeft(text: string): (r: string)
    ensures Blank(text) <==> r == ""
    ensures r != "" ==> !IsSpace(r[0])
  {
    if text != "" && IsSpace(text[0]) then TrimLeft(text[1..]) else text
  }

  function TrimRight(text: string): (r: string)
    ensures r <= text
    ensures Blank(text) <==> r == ""
    ensures r != "" ==> !IsSpace(r[|r| - 1])
  {
    if text != "" && IsSpace(text[|text| - 1]) then TrimRight(text[..|text| - 1]) else text
  }

  /** strings.TrimSpace */
  function Trim(text: string): (r: string)
    ensures Blank(text) <==> r == ""
    ensures r != "" ==> !IsSpace(r[0]) && !IsSpace(r[|r| - 1])
  {
    TrimRight(TrimLeft(text))
  }

  /** Trimming takes white space off both ends and nothing else. */
  lemma TrimIsMiddle(text: string) returns (i: nat, j: nat)
    ensures i <= j <= |text| && Trim(text) == text[i..j] && Blank(text[..i]) && Blank(text[j..])
  {
    i := TrimmedLeft(text);
    j := i + |TrimRight(text[i..])|;
    TrimmedRight(text[i..]);
    assert text[i..][j - i..] == text[j..] && text[i..][..j - i] == text[i..j];
  }

  lemma {:induction false} TrimmedLeft(text: string) returns (i: nat)
    ensures i <= |text| && TrimLeft(text) == text[i..] && Blank(text[..i])
  {
    if text != "" && IsSpace(text[0]) {
      var k := TrimmedLeft(text[1..]);
      i := k + 1;
      assert text[..i] == [text[0]] + text[1..][..k];
      hide IsSpace;
    } else {
      i := 0;
    }
  }

  lemma {:induction false} TrimmedRight(text: string)
    ensures Blank(text[|TrimRight(text)|..])
  {
    hide IsSpace, Blank;
    if text != "" && IsSpace(text[|text| - 1]) {
      var n := |text| - 1;
      TrimmedRight(text[..n]);
      var k := |TrimRight(text)|;
      assert text[k..] == text[..n][k..] + [text[n]];
      BlankGrows(text[..n][k..], text[n]);
    } else {
      assert text[|TrimRight(text)|..] == "";
      NothingIsBlank();
    }
  }

  lemma NothingIsBlank()
    ensures Blank("")
  {
  }

  lemma BlankGrows(text: string, c: char)
    requires Blank(text) && IsSpace(c)
    ensures Blank(text + [c])
  {
    hide IsSpace;
  }

  lemma TrimKeeps(text: string)
    requires text != "" && !IsSpace(text[0]) && !IsSpace(text[|text| - 1])
    ensures Trim(text) == text
  {
  }

  lemma PrintableIsNoSpace(c: char)
    requires '!' <= c <= '~'
    ensures !IsSpace(c)
  {
  }

  lemma TrimPrintable(text: string)
    requires text != "" && '!' <= text[0] <= '~' && '!' <= text[|text| - 1] <= '~'
    ensures Trim(text) == text
  {
    PrintableIsNoSpace(text[0]);
    PrintableIsNoSpace(text[|text| - 1]);
    TrimKeeps(text);
  }

  predicate Distinct<T(==)>(items: seq<T>) {
    forall i, j :: 0 <= i < j < |items| ==> items[i] != items[j]
  }

  /** `order` lists every key exactly once: one possible iteration order. */
  predicate Enumerates<T(==)>(order: seq<T>, keys: set<T>) {
    Distinct(order) && (set k | k in order) == keys
  }

  /** The rows `rows` inserted one after another under the keys `keys`. */
  function Zip<V>(keys: seq<Id>, rows: seq<V>): (m: map<Id, V>)
    requires |keys| == |rows|
    ensures m.Keys == set k | k in keys
    ensures Distinct(keys) ==> forall i :: 0 <= i < |keys| ==> keys[i] in m && m[keys[i]] == rows[i]
  {
    if keys == [] then map[]
    else
      var n := |keys| - 1;
      assert keys == keys[..n] + [keys[n]];
      Zip(keys[..n], rows[..n])[keys[n] := rows[n]]
  }

  lemma ZipExtends<V>(m: map<Id, V>, keys: seq<Id>, rows: seq<V>)
    requires |keys| == |rows| > 0
    ensures var n := |keys| - 1;
            m + Zip(keys, rows) == (m + Zip(keys[..n], rows[..n]))[keys[n] := rows[n]]
  {
  }

  ghost function Sum<K>(m: map<K, int>): int {
    if m == map[] then 0
    else
      var k :| k in m;
      m[k] + Sum(m - {k})
  }

  lemma {:induction false} SumRemove<K>(m: map<K, int>, k: K)
    requires k in m
    ensures Sum(m) == m[k] + Sum(m - {k})
  {
    var first :| first in m && Sum(m) == m[first] + Sum(m - {first});
    if first != k {
      SumRemove(m - {first}, k);
      SumRemove(m - {k}, first);
      assert m - {first} - {k} == m - {k} - {first};
    }
  }

  lemma SumInsert<K>(m: map<K, int>, k: K, v: int)
    requires k !in m
    ensures Sum(m[k := v]) == Sum(m) + v
  {
    SumRemove(m[k := v], k);
    assert m[k := v] - {k} == m;
  }

  lemma SumReplace<K>(m: map<K, int>, k: K, v: int)
    requires k in m
    ensures Sum(m[k := v]) == Sum(m) - m[k] + v
  {
    SumRemove(m, k);
    SumRemove(m[k := v], k);
    assert m[k := v] - {k} == m - {k};
  }

  lemma {:induction false} SumZero<K>(m: map<K, int>)
    requires forall k :: k in m ==> m[k] == 0
    ensures Sum(m) == 0
  {
    if m != map[] {
      var k :| k in m;
      SumRemove(m, k);
      SumZero(m - {k});
    }
  }

  lemma {:induction false} SumUnion<K>(a: map<K, int>, b: map<K, int>)
    requires a.Keys !! b.Keys
    ensures Sum(a + b) == Sum(a) + Sum(b)
  {
    if b == map[] {
      assert a + b == a;
    } else {
      var k :| k in b;
      SumRemove(b, k);
      SumUnion(a, b - {k});
      SumRemove(a + b, k);
      assert (a + b) - {k} == a + (b - {k});
    }
  }

  lemma {:induction false} SumMonotone<K>(m: map<K, int>, k: K)
    requires k in m && forall x :: x in m ==> m[x] >= 0
    ensures Sum(m) >= m[k]
  {
    SumRemove(m, k);
    SumNonNegative(m - {k});
  }

  lemma {:induction false} SumNonNegative<K>(m: map<K, int>)
    requires forall x :: x in m ==> m[x] >= 0
    ensures Sum(m) >= 0
  {
    if m != map[] {
      var k :| k in m;
      SumRemove(m, k);
      SumNonNegative(m - {k});
    }
  }

  lemma SumZipLast(keys: seq<Id>, values: seq<int>)
    requires |keys| == |values| > 0 && Distinct(keys)
    ensures var n := |keys| - 1;
            Sum(Zip(keys, values)) == Sum(Zip(keys[..n], values[..n])) + values[n]
  {
    var n := |keys| - 1;
    assert keys[n] !in keys[..n];
    SumInsert(Zip(keys[..n], values[..n]), keys[n], values[n]);
  }

  /** Two key columns over the same values have the same total. */
  lemma {:induction false} SumZipRekeyed(a: seq<Id>, b: seq<Id>, values: seq<int>)
    requires |a| == |b| == |values| && Distinct(a) && Distinct(b)
    ensures Sum(Zip(a, values)) == Sum(Zip(b, values))
  {
    if a != [] {
      var n := |a| - 1;
      SumZipRekeyed(a[..n], b[..n], values[..n]);
      SumZipLast(a, values);
      SumZipLast(b, values);
    }
  }

  // ----- 64-bit integers -----

  const TWO_63: int := 0x8000_0000_0000_0000
  const TWO_64: int := 0x1_0000_0000_0000_0000

  /** The int64 that a mathematical result is stored as. */
  function Wrap(x: int): (r: int)
    ensures -TWO_63 <= r < TWO_63
  {
    (x + TWO_63) % TWO_64 - TWO_63
  }

  // ----- Division -----

  lemma AtLeastOnce(k: int, m: int)
    requires k >= 1 && m > 0
    ensures k * m >= m
  {
  }

  /** A quotient and a remainder in range are the only ones. */
  lemma DivisionIsUnique(a: int, q: int, r: int, m: int)
    requires m > 0 && 0 <= r < m && a == q * m + r
    ensures a / m == q && a % m == r
  {
    var (x, y) := (a / m, a % m);
    assert x * m + y == q * m + r;
    assert (x - q) * m == r - y;
    assert (q - x) * m == y - r;
    if x >= q + 1 { AtLeastOnce(x - q, m); }
    if x <= q - 1 { AtLeastOnce(q - x, m); }
  }
}
