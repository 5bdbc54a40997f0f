/** The two pieces of JavaScript string behaviour the harness relies on:
    `String.prototype.includes` (every static check and the log verdict are
    substring searches) and the decimal rendering of a counter inside a template
    literal (the suite's summary line). */
module Text {

  /** `frag` occurs in `text` starting at index `i`. */
  ghost predicate OccursAt(text: string, frag: string, i: int) {
    0 <= i && i + |frag| <= |text| && text[i..i + |frag|] == frag
  }

  /** Occurrences in `text[1..]` are the occurrences in `text` shifted by one. */
  lemma OccursShift(text: string, frag: string, i: int)
    requires |text| > 0 && 0 <= i
    ensures OccursAt(text[1..], frag, i) <==> OccursAt(text, frag, i + 1)
  {
    if i + |frag| <= |text| - 1 {
      assert text[1..][i..i + |frag|] == text[i + 1..i + 1 + |frag|];
    }
  }

  /** `text.includes(frag)`: a search from the left that tries every start index.
      The empty fragment is found in every text, as in JavaScript. */
  function Includes(text: string, frag: string): bool
    decreases |text|
  {
    if |frag| > |text| then false
    else if text[..|frag|] == frag then true
    else Includes(text[1..], frag)
  }

  /** The search finds `frag` exactly when it occurs somewhere in `text`. */
  lemma {:induction false} IncludesIffOccurs(text: string, frag: string)
    ensures Includes(text, frag) <==> exists i :: OccursAt(text, frag, i)
    decreases |text|
  {
    if |frag| > |text| {
      assert forall i :: !OccursAt(text, frag, i);
    } else if text[..|frag|] == frag {
      assert OccursAt(text, frag, 0);
    } else {
      IncludesIffOccurs(text[1..], frag);
      if Includes(text[1..], frag) {
        var j :| OccursAt(text[1..], frag, j);
        OccursShift(text, frag, j);
      } else {
        forall i | OccursAt(text, frag, i) ensures false {
          assert i != 0;
          OccursShift(text, frag, i - 1);
        }
      }
    }
  }

  /** Text put in front of `text` does not hide an occurrence in it. */
  lemma IncludesInSuffix(front: string, text: string, frag: string)
    requires Includes(text, frag)
    ensures Includes(front + text, frag)
  {
    IncludesIffOccurs(text, frag);
    var j :| OccursAt(text, frag, j);
    assert (front + text)[|front| + j..|front| + j + |frag|] == text[j..j + |frag|];
    assert OccursAt(front + text, frag, |front| + j);
    IncludesIffOccurs(front + text, frag);
  }

  /** Text put after `text` does not hide an occurrence in it. */
  lemma IncludesInPrefix(text: string, back: string, frag: string)
    requires Includes(text, frag)
    ensures Includes(text + back, frag)
  {
    IncludesIffOccurs(text, frag);
    var j :| OccursAt(text, frag, j);
    assert (text + back)[j..j + |frag|] == text[j..j + |frag|];
    assert OccursAt(text + back, frag, j);
    IncludesIffOccurs(text + back, frag);
  }

  /** Every text includes itself. */
  lemma IncludesItself(text: string)
    ensures Includes(text, text)
  {
    IncludesIffOccurs(text, text);
    assert OccursAt(text, text, 0);
  }

  /** `s.startsWith(prefix)`. */
  predicate StartsWith(s: string, prefix: string) {
    |prefix| <= |s| && s[..|prefix|] == prefix
  }

  /** The character of a decimal digit. */
  function Digit(d: nat): (c: char)
    requires d < 10
    ensures '0' <= c <= '9'
    ensures c as int - '0' as int == d
  {
    ('0' as int + d) as char
  }

  predicate IsDigit(c: char) { '0' <= c <= '9' }

  /** The decimal rendering of a counter, as `${n}` produces it for a
      non-negative integer: no sign, no leading zero. */
  function DecimalString(n: nat): (s: string)
    ensures |s| > 0
    ensures forall k | 0 <= k < |s| :: IsDigit(s[k])
    ensures s[|s| - 1] == Digit(n % 10)
    ensures |s| > 1 ==> s[0] != '0'
    decreases n
  {
    if n < 10 then [Digit(n)]
    else
      var init := DecimalString(n / 10);
      init + [Digit(n % 10)]
  }

  /** The value of a string of decimal digits. */
  function DecimalValue(s: string): nat
    requires forall k | 0 <= k < |s| :: IsDigit(s[k])
  {
    if |s| == 0 then 0
    else
      assert IsDigit(s[|s| - 1]);
      DecimalValue(s[..|s| - 1]) * 10 + (s[|s| - 1] as int - '0' as int)
  }

  /** Reading back the rendering of a counter gives the counter. */
  lemma {:induction false} DecimalRoundTrip(n: nat)
    ensures DecimalValue(DecimalString(n)) == n
    decreases n
  {
    var s := DecimalString(n);
    if n >= 10 {
      DecimalRoundTrip(n / 10);
      assert s[..|s| - 1] == DecimalString(n / 10);
    }
  }
}
