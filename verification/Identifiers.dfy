/** The fixed forms of identifiers and hashes. */
module Identifiers {

  predicate Digit(c: char) { '0' <= c <= '9' }
  predicate Hex(c: char) { Digit(c) || 'a' <= c <= 'f' }

  /** A SHA-256 digest in lower-case hexadecimal. */
  predicate IsHash(s: string) { |s| == 64 && forall k :: 0 <= k < 64 ==> Hex(s[k]) }

  /** `backup_id` */
  predicate IsBackupId(s: string) {
    && |s| == 38 && s[..9] == "forecast-" && s[17] == 'T' && s[24] == 'Z' && s[25] == '-'
    && (forall k :: 9 <= k < 17 ==> Digit(s[k]))
    && (forall k :: 18 <= k < 24 ==> Digit(s[k]))
    && (forall k :: 26 <= k < 38 ==> Hex(s[k]))
  }

  ghost predicate AllOf(s: string, alphabet: string) { forall k :: 0 <= k < |s| ==> s[k] in alphabet }

  lemma HashForm(s: string)
    ensures IsHash(s) <==> |s| == 64 && AllOf(s, "0123456789abcdef")
  {
    forall c: char ensures Hex(c) <==> c in "0123456789abcdef" { HexForm(c); }
  }

  lemma DigitForm(c: char)
    ensures Digit(c) <==> c in "0123456789"
  {
    if Digit(c) { assert "0123456789"[c as int - '0' as int] == c; }
  }

  lemma HexForm(c: char)
    ensures Hex(c) <==> c in "0123456789abcdef"
  {
    if Digit(c) { assert "0123456789abcdef"[c as int - '0' as int] == c; }
    if 'a' <= c <= 'f' { assert "0123456789abcdef"[c as int - 'a' as int + 10] == c; }
  }

  /** A day and a time in digits and twelve digits of a hash, around fixed text. */
  ghost predicate Spells(s: string, day: string, time: string, tag: string) {
    && s == "forecast-" + day + "T" + time + "Z-" + tag
    && |day| == 8 && AllOf(day, "0123456789") && |time| == 6 && AllOf(time, "0123456789")
    && |tag| == 12 && AllOf(tag, "0123456789abcdef")
  }

  lemma BackupIdForm(s: string)
    ensures IsBackupId(s) <==> exists day, time, tag :: Spells(s, day, time, tag)
  {
    if IsBackupId(s) { BackupIdSpells(s); }
    if day, time, tag :| Spells(s, day, time, tag) { SpelledIsBackupId(s, day, time, tag); }
  }

  lemma BackupIdSpells(s: string)
    requires IsBackupId(s)
    ensures Spells(s, s[9..17], s[18..24], s[26..])
  {
    var day, time, tag := s[9..17], s[18..24], s[26..];
    forall k | 0 <= k < 8 ensures day[k] in "0123456789" { DigitForm(s[9 + k]); }
    forall k | 0 <= k < 6 ensures time[k] in "0123456789" { DigitForm(s[18 + k]); }
    forall k | 0 <= k < 12 ensures tag[k] in "0123456789abcdef" { HexForm(s[26 + k]); }
    Splits(s, day, time, tag);
  }

  lemma Splits(s: string, day: string, time: string, tag: string)
    requires |s| == 38 && s[..9] == "forecast-" && s[17] == 'T' && s[24] == 'Z' && s[25] == '-'
    requires day == s[9..17] && time == s[18..24] && tag == s[26..]
    ensures s == "forecast-" + day + "T" + time + "Z-" + tag
  {
    assert s[24..26] == "Z-";
    assert s[17..18] == "T";
    assert s == s[..9] + s[9..17] + s[17..18] + s[18..24] + s[24..26] + s[26..];
  }

  lemma SpelledIsBackupId(s: string, day: string, time: string, tag: string)
    requires Spells(s, day, time, tag)
    ensures IsBackupId(s)
  {
    forall k | 9 <= k < 17 ensures Digit(s[k]) { assert s[k] == day[k - 9]; DigitForm(s[k]); }
    forall k | 18 <= k < 24 ensures Digit(s[k]) { assert s[k] == time[k - 18]; DigitForm(s[k]); }
    forall k | 26 <= k < 38 ensures Hex(s[k]) { assert s[k] == tag[k - 26]; HexForm(s[k]); }
  }
}
