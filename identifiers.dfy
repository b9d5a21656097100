/**
 * Default identifiers of the two schemas. Both take a version-4 uuid, drop its
 * first '-' (JavaScript `String.prototype.replace` with a string pattern
 * replaces only the first occurrence) and keep a prefix (`slice(0, n)`):
 * 12 characters for an account number, 7 for a transaction's short id.
 */
module Identifiers {

  /** Lower- or upper-case hexadecimal digit. */
  predicate IsHexDigit(c: char) {
    ('0' <= c <= '9') || ('a' <= c <= 'f') || ('A' <= c <= 'F')
  }

  /** The positions of the four dashes in the canonical 8-4-4-4-12 layout. */
  predicate IsDashPosition(k: int) {
    k == 8 || k == 13 || k == 18 || k == 23
  }

  /** A uuid in its canonical textual form. */
  predicate IsUuid(u: string) {
    |u| == 36 &&
    forall k :: 0 <= k < |u| ==> if IsDashPosition(k) then u[k] == '-' else IsHexDigit(u[k])
  }

  /** `s.replace(c, "")` for a one-character pattern: removes the first `c`, if any. */
  function ReplaceFirst(s: string, c: char): (r: string)
    ensures c !in s ==> r == s
    ensures c in s ==> |r| == |s| - 1
  {
    if s == [] then []
    else if s[0] == c then s[1..]
    else [s[0]] + ReplaceFirst(s[1..], c)
  }

  /** `s.slice(0, n)`: the first `n` characters, or all of `s` when it is shorter. */
  function Slice(s: string, n: nat): (r: string)
    ensures |r| == if n <= |s| then n else |s|
    ensures r <= s
  {
    if n <= |s| then s[..n] else s
  }

  /** `u.replace("-", "").slice(0, width)`, the expression both schemas use as a default. */
  function DerivedId(u: string, width: nat): (r: string)
    ensures '-' !in u ==> r == Slice(u, width)
    ensures '-' in u ==> |r| == if width < |u| then width else |u| - 1
    ensures IsUuid(u) ==> |r| == if width < 36 then width else 35
  {
    assert IsUuid(u) ==> u[8] == '-';
    Slice(ReplaceFirst(u, '-'), width)
  }

  lemma {:induction false} ReplaceFirstAt(s: string, c: char, i: nat)
    requires i < |s| && s[i] == c
    requires forall k :: 0 <= k < i ==> s[k] != c
    ensures ReplaceFirst(s, c) == s[..i] + s[i + 1..]
  {
    if i > 0 {
      ReplaceFirstAt(s[1..], c, i - 1);
      assert s[1..][..i - 1] + s[1..][i..] == s[1..i] + s[i + 1..];
      assert [s[0]] + s[1..i] == s[..i];
    }
  }

  /**
   * For a canonical uuid and a width of at most 12 the derived id is the uuid
   * with its first dash dropped, cut to `width`: exactly `width` hex digits.
   */
  lemma DerivedIdLayout(u: string, width: nat)
    requires IsUuid(u) && width <= 12
    ensures DerivedId(u, width) == (u[..8] + u[9..])[..width]
    ensures |DerivedId(u, width)| == width
    ensures forall k :: 0 <= k < width ==> IsHexDigit(DerivedId(u, width)[k])
  {
    assert u[8] == '-';
    forall k | 0 <= k < 8 ensures u[k] != '-' {
      assert !IsDashPosition(k) && IsHexDigit(u[k]);
    }
    ReplaceFirstAt(u, '-', 8);
    var r := DerivedId(u, width);
    forall k | 0 <= k < width ensures IsHexDigit(r[k]) {
      if k < 8 {
        assert r[k] == u[k] && !IsDashPosition(k);
      } else {
        assert r[k] == u[k + 1] && !IsDashPosition(k + 1);
      }
    }
  }

  /** The default account number: exactly twelve hex digits, the uuid's first 8 and next 4. */
  lemma AccountNumberLayout(u: string)
    requires IsUuid(u)
    ensures DerivedId(u, 12) == u[..8] + u[9..13]
    ensures |DerivedId(u, 12)| == 12
  {
    DerivedIdLayout(u, 12);
    assert (u[..8] + u[9..])[..12] == u[..8] + u[9..13];
  }

  /** The default transaction short id: exactly the uuid's first seven hex digits. */
  lemma ShortIdLayout(u: string)
    requires IsUuid(u)
    ensures DerivedId(u, 7) == u[..7]
    ensures |DerivedId(u, 7)| == 7
  {
    DerivedIdLayout(u, 7);
    assert (u[..8] + u[9..])[..7] == u[..7];
  }

  /**
   * The schemas as written: `default: uuid()...` is evaluated once, when the
   * schema is defined, so every record created afterwards receives the value
   * derived from that one uuid; the uuids that would have been drawn per record
   * play no part.
   */
  function SchemaDefaultsAsWritten(schemaUuid: string, recordUuids: seq<string>, width: nat): (ids: seq<string>)
    ensures |ids| == |recordUuids|
    ensures forall j, k :: 0 <= j < |ids| && 0 <= k < |ids| ==> ids[j] == ids[k]
  {
    seq(|recordUuids|, _ => DerivedId(schemaUuid, width))
  }

  /** Two records get the same default even when their own uuids differ. */
  lemma AsWrittenDefaultsCollide(schemaUuid: string, recordUuids: seq<string>, width: nat)
    requires |recordUuids| >= 2 && recordUuids[0] != recordUuids[1]
    ensures SchemaDefaultsAsWritten(schemaUuid, recordUuids, width)[0]
         == SchemaDefaultsAsWritten(schemaUuid, recordUuids, width)[1]
  {
  }

  /** The evidently intended defaults: one fresh uuid per record. */
  function PerRecordDefaults(recordUuids: seq<string>, width: nat): (ids: seq<string>)
    ensures |ids| == |recordUuids|
    ensures forall k :: 0 <= k < |ids| ==> ids[k] == DerivedId(recordUuids[k], width)
    ensures forall k :: 0 <= k < |ids| && IsUuid(recordUuids[k]) && width <= 12 ==> |ids[k]| == width
  {
    seq(|recordUuids|, k requires 0 <= k < |recordUuids| => DerivedId(recordUuids[k], width))
  }

  /**
   * With per-record uuids, two account numbers coincide only when the two uuids
   * agree on every character the number keeps (the first 13, dash excepted).
   */
  lemma PerRecordAccountNumbersDistinct(recordUuids: seq<string>, j: nat, k: nat, p: nat)
    requires j < |recordUuids| && k < |recordUuids|
    requires IsUuid(recordUuids[j]) && IsUuid(recordUuids[k])
    requires p < 13 && p != 8 && recordUuids[j][p] != recordUuids[k][p]
    ensures PerRecordDefaults(recordUuids, 12)[j] != PerRecordDefaults(recordUuids, 12)[k]
  {
    var uj, uk := recordUuids[j], recordUuids[k];
    AccountNumberLayout(uj);
    AccountNumberLayout(uk);
    var q := if p < 8 then p else p - 1;
    assert DerivedId(uj, 12)[q] == uj[p];
    assert DerivedId(uk, 12)[q] == uk[p];
  }
}
