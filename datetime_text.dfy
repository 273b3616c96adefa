/**
  The textual side of date-time reconciliation. CiviCRM writes a date-time as
  `YYYY-MM-DD hh:mm:ss`; Drupal's datetime storage format is
  `YYYY-MM-DDThh:mm:ss`. Both are the full-date and partial-time of section 5.6
  of RFC 3339, joined by the "T" the grammar prescribes or by the space its
  note permits. The load path converts one into the other with
  `str_replace(' ', 'T', ...)`.
 */
module DateTimeText {
  import opened Php

  /** `str_replace(' ', 'T', $s)` on a string. */
  function SpacesToT(s: string): (r: string)
    ensures |r| == |s|
    ensures forall k :: 0 <= k < |s| ==> r[k] == if s[k] == ' ' then 'T' else s[k]
  {
    if s == [] then [] else [if s[0] == ' ' then 'T' else s[0]] + SpacesToT(s[1..])
  }

  /** The reverse rewrite, `str_replace('T', ' ', $s)`. */
  function TsToSpaces(s: string): (r: string)
    ensures |r| == |s|
    ensures forall k :: 0 <= k < |s| ==> r[k] == if s[k] == 'T' then ' ' else s[k]
  {
    if s == [] then [] else [if s[0] == 'T' then ' ' else s[0]] + TsToSpaces(s[1..])
  }

  /** No space survives the rewrite, and every other character stays where it was. */
  lemma SpacesToTRemovesSpaces(s: string)
    ensures ' ' !in SpacesToT(s)
    ensures forall k :: 0 <= k < |s| && s[k] != ' ' ==> SpacesToT(s)[k] == s[k]
  {
    var r := SpacesToT(s);
    forall k | 0 <= k < |r| ensures r[k] != ' ' { }
  }

  /** Rewriting twice is rewriting once: an already converted value is not converted again. */
  lemma SpacesToTIdempotent(s: string)
    ensures SpacesToT(SpacesToT(s)) == SpacesToT(s)
  {
    var r := SpacesToT(s);
    assert forall k :: 0 <= k < |r| ==> SpacesToT(r)[k] == r[k];
  }

  /** On strings without a "T" the rewrite loses nothing: the reverse rewrite restores the input. */
  lemma SpacesToTInverse(s: string)
    requires 'T' !in s
    ensures TsToSpaces(SpacesToT(s)) == s
  {
    var r := TsToSpaces(SpacesToT(s));
    assert forall k :: 0 <= k < |s| ==> r[k] == s[k];
  }

  /** The str_replace(' ', 'T', ...) call itself, on any PHP value. */
  function StrReplaceSpaces(v: Value): (r: Value)
    ensures r.Arr? <==> v.Arr?
    ensures !v.Arr? ==> r == Str(SpacesToT(ScalarToString(v))) && ' ' !in r.s
    ensures v.Arr? ==>
              |r.entries| == |v.entries| &&
              forall i :: 0 <= i < |r.entries| ==>
                r.entries[i].0 == v.entries[i].0 &&
                (v.entries[i].1.Arr? ==> r.entries[i].1 == v.entries[i].1) &&
                (!v.entries[i].1.Arr? ==> r.entries[i].1 == Str(SpacesToT(ScalarToString(v.entries[i].1))))
  {
    match v
    case Arr(es) =>
      // An array subject is rewritten entry by entry; nested arrays are copied as they are.
      Arr(seq(|es|, i requires 0 <= i < |es| =>
        (es[i].0, if es[i].1.Arr? then es[i].1 else Str(SpacesToT(ScalarToString(es[i].1))))))
    case _ => Str(SpacesToT(ScalarToString(v)))
  }

  predicate DigitsAt(s: string, i: nat, n: nat) {
    i + n <= |s| && forall k :: i <= k < i + n ==> IsDigit(s[k])
  }

  /** RFC 3339 full-date: `YYYY-MM-DD` (shape only; month and day ranges are not checked). */
  predicate IsFullDate(s: string) {
    |s| == 10 && DigitsAt(s, 0, 4) && s[4] == '-' && DigitsAt(s, 5, 2) && s[7] == '-' && DigitsAt(s, 8, 2)
  }

  /** RFC 3339 partial-time without fraction: `hh:mm:ss` (shape only). */
  predicate IsPartialTime(s: string) {
    |s| == 8 && DigitsAt(s, 0, 2) && s[2] == ':' && DigitsAt(s, 3, 2) && s[5] == ':' && DigitsAt(s, 6, 2)
  }

  /** A full-date and a partial-time joined by `sep`. */
  predicate IsDateTimeWith(s: string, sep: char) {
    |s| == 19 && IsFullDate(s[..10]) && s[10] == sep && IsPartialTime(s[11..])
  }

  /** CiviCRM's form, with the space separator. */
  predicate IsCiviDateTime(s: string) {
    IsDateTimeWith(s, ' ')
  }

  /** Drupal's datetime storage form, with the "T" separator. */
  predicate IsStorageDateTime(s: string) {
    IsDateTimeWith(s, 'T')
  }

  /** The rewrite turns CiviCRM's form into the storage form, changing only the separator. */
  lemma CiviToStorage(s: string)
    requires IsCiviDateTime(s)
    ensures IsStorageDateTime(SpacesToT(s))
    ensures SpacesToT(s)[..10] == s[..10] && SpacesToT(s)[11..] == s[11..]
    ensures TsToSpaces(SpacesToT(s)) == s
  {
    var r := SpacesToT(s);
    assert forall k :: 0 <= k < 19 && k != 10 ==> r[k] == s[k];
    assert r[..10] == s[..10];
    assert r[11..] == s[11..];
    assert 'T' !in s by {
      forall k | 0 <= k < |s| ensures s[k] != 'T' {
        if k < 10 { assert s[..10][k] == s[k]; } else if k > 10 { assert s[11..][k - 11] == s[k]; }
      }
    }
    SpacesToTInverse(s);
  }

  /** A value already in storage form, and a date-only value, come out unchanged. */
  lemma StorageFormStable(s: string)
    requires IsStorageDateTime(s) || IsFullDate(s)
    ensures SpacesToT(s) == s
  {
    assert ' ' !in s by {
      forall k | 0 <= k < |s| ensures s[k] != ' ' {
        if |s| == 19 {
          if k < 10 { assert s[..10][k] == s[k]; } else if k > 10 { assert s[11..][k - 11] == s[k]; }
        }
      }
    }
    var r := SpacesToT(s);
    assert forall k :: 0 <= k < |s| ==> r[k] == s[k];
  }

  /** A date, in either date-time form or date-only, is never numeric: it always takes the rewrite branch. */
  lemma DateFormsAreNotNumeric(s: string)
    requires IsCiviDateTime(s) || IsStorageDateTime(s) || IsFullDate(s)
    ensures !IsNumericString(s)
  {
    assert s[..10][4] == s[4];
    assert IsDigit(s[..10][0]) && IsDigit(s[..10][1]) && IsDigit(s[..10][2]) && IsDigit(s[..10][3]);
    assert WhitespaceEnd(s, 0) == 0;
    assert SignEnd(s, 0) == 0;
    assert DigitsEnd(s, 0) == 4 by {
      assert DigitsEnd(s, 4) == 4;
    }
    assert ExponentEnd(s, 4) == 4;
  }

  /** A non-numeric string stays non-numeric after the rewrite, so a second load pass rewrites it again rather than reading it as a timestamp. */
  lemma RewriteKeepsNonNumeric(s: string)
    requires !IsNumericString(s)
    ensures !IsNumericString(SpacesToT(s))
  {
    var r := SpacesToT(s);
    if exists k :: 0 <= k < |s| && s[k] == ' ' {
      var k :| 0 <= k < |s| && s[k] == ' ';
      NotNumericWith(r, k);
    } else {
      assert forall k :: 0 <= k < |s| ==> r[k] == s[k];
      assert r == s;
    }
  }
}
