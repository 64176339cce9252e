/**
 * The server's manifest of field-office bulletins that an HQ account may
 * retrieve. Each entry is one string `localId=fieldDataPacketLocalId=size`.
 */
module Manifest {
  import opened Wrappers

  datatype ManifestEntry = ManifestEntry(localId: string, fdpLocalId: string, size: nat)

  const Separator: char := '='

  /** An identifier that can stand in one field of an entry. */
  predicate IsIdField(s: string) {
    s != [] && Separator !in s
  }

  predicate WellFormed(e: ManifestEntry) {
    IsIdField(e.localId) && IsIdField(e.fdpLocalId)
  }

  // ----- fields -----

  /** The fields of `s` between separators, in order; "" for an empty field. */
  function Split(s: string): (parts: seq<string>)
    ensures |parts| >= 1
    ensures forall k :: 0 <= k < |parts| ==> Separator !in parts[k]
    decreases |s|
  {
    if s == [] then [""]
    else
      var rest := Split(s[1..]);
      if s[0] == Separator then [""] + rest
      else [[s[0]] + rest[0]] + rest[1..]
  }

  /** The fields joined back with separators: the inverse of `Split`. */
  function Join(parts: seq<string>): string
    requires |parts| >= 1
    decreases |parts|
  {
    if |parts| == 1 then parts[0] else parts[0] + [Separator] + Join(parts[1..])
  }

  lemma {:induction false} JoinSplit(s: string)
    ensures Join(Split(s)) == s
    decreases |s|
  {
    if s != [] {
      JoinSplit(s[1..]);
      var rest := Split(s[1..]);
      if s[0] != Separator {
        if |rest| == 1 {
          assert Join(Split(s)) == [s[0]] + rest[0];
        } else {
          assert Split(s)[1..] == rest[1..];
          assert Join(Split(s)) == [s[0]] + rest[0] + [Separator] + Join(rest[1..]);
        }
      }
      assert s == [s[0]] + s[1..];
    }
  }

  /** A field without separators splits into itself. */
  lemma {:induction false} SplitField(a: string)
    requires Separator !in a
    ensures Split(a) == [a]
    decreases |a|
  {
    if a != [] {
      SplitField(a[1..]);
      assert [a[0]] + a[1..] == a;
    }
  }

  /** A leading field followed by a separator splits off as the first part. */
  lemma {:induction false} SplitFirstField(a: string, rest: string)
    requires Separator !in a
    ensures Split(a + [Separator] + rest) == [a] + Split(rest)
    decreases |a|
  {
    var s := a + [Separator] + rest;
    if a == [] {
      assert s[1..] == rest;
    } else {
      assert s[1..] == a[1..] + [Separator] + rest;
      SplitFirstField(a[1..], rest);
      assert [a[0]] + a[1..] == a;
    }
  }

  lemma {:induction false} SplitJoin(parts: seq<string>)
    requires |parts| >= 1
    requires forall k :: 0 <= k < |parts| ==> Separator !in parts[k]
    ensures Split(Join(parts)) == parts
    decreases |parts|
  {
    if |parts| == 1 {
      SplitField(parts[0]);
    } else {
      SplitJoin(parts[1..]);
      SplitFirstField(parts[0], Join(parts[1..]));
      assert [parts[0]] + parts[1..] == parts;
    }
  }

  // ----- decimal sizes -----

  predicate IsDigit(c: char) {
    '0' <= c <= '9'
  }

  predicate AllDigits(s: string) {
    forall k :: 0 <= k < |s| ==> IsDigit(s[k])
  }

  function DigitChar(d: nat): (c: char)
    requires d < 10
  {
    ('0' as int + d) as char
  }

  function DecimalValue(s: string): nat
    requires AllDigits(s)
    decreases |s|
  {
    if s == [] then 0
    else DecimalValue(s[..|s| - 1]) * 10 + (s[|s| - 1] as int - '0' as int)
  }

  /** The size field: a non-empty run of decimal digits. */
  function ParseSize(s: string): (r: Option<nat>)
    ensures r.Some? <==> s != [] && AllDigits(s)
  {
    if s != [] && AllDigits(s) then Some(DecimalValue(s)) else None
  }

  /** The decimal text of a size, as the server writes it into an entry. */
  function SizeText(n: nat): (s: string)
    decreases n
  {
    if n < 10 then [DigitChar(n)] else SizeText(n / 10) + [DigitChar(n % 10)]
  }

  lemma {:induction false} SizeTextIsDecimal(n: nat)
    ensures SizeText(n) != [] && AllDigits(SizeText(n))
    ensures DecimalValue(SizeText(n)) == n
    decreases n
  {
    if n >= 10 {
      SizeTextIsDecimal(n / 10);
      var s := SizeText(n);
      assert s[..|s| - 1] == SizeText(n / 10);
    }
  }

  lemma SizeRoundTrip(n: nat)
    ensures ParseSize(SizeText(n)) == Some(n)
  {
    SizeTextIsDecimal(n);
  }

  // ----- entries -----

  /**
   * Parses one manifest entry. An entry that is not exactly three fields,
   * has an empty identifier or a size that is not decimal yields None.
   */
  function ParseEntry(s: string): (r: Option<ManifestEntry>)
    ensures r.Some? ==> WellFormed(r.value)
    ensures r.Some? <==> |Split(s)| == 3 && Split(s)[0] != [] && Split(s)[1] != []
                         && ParseSize(Split(s)[2]).Some?
  {
    var parts := Split(s);
    if |parts| != 3 || parts[0] == [] || parts[1] == [] then None
    else
      match ParseSize(parts[2])
      case None => None
      case Some(n) => Some(ManifestEntry(parts[0], parts[1], n))
  }

  /** The entry text the server lists for a bulletin. */
  function FormatEntry(e: ManifestEntry): string {
    e.localId + [Separator] + e.fdpLocalId + [Separator] + SizeText(e.size)
  }

  /** The entry text of a well-formed entry has exactly its three fields, in order. */
  lemma FormatEntryFields(e: ManifestEntry)
    requires WellFormed(e)
    ensures Split(FormatEntry(e)) == [e.localId, e.fdpLocalId, SizeText(e.size)]
  {
    SizeTextIsDecimal(e.size);
    var parts := [e.localId, e.fdpLocalId, SizeText(e.size)];
    assert parts[1..][1..] == [SizeText(e.size)];
    assert Join(parts[1..]) == e.fdpLocalId + [Separator] + SizeText(e.size);
    assert Join(parts) == FormatEntry(e);
    assert forall k :: 0 <= k < |parts| ==> Separator !in parts[k];
    SplitJoin(parts);
  }

  lemma EntryRoundTrip(e: ManifestEntry)
    requires WellFormed(e)
    ensures ParseEntry(FormatEntry(e)) == Some(e)
  {
    FormatEntryFields(e);
    SizeRoundTrip(e.size);
  }

  /** A parsed entry, written back out, parses to the same entry. */
  lemma ReparseEntry(s: string)
    requires ParseEntry(s).Some?
    ensures ParseEntry(FormatEntry(ParseEntry(s).value)) == ParseEntry(s)
  {
    EntryRoundTrip(ParseEntry(s).value);
  }
}
