/** What trimming, lower case and removing spaces leave of a text. */
module TextTheory {
  import opened Text

  /** ASCII is settled whatever the tables say: capitals become small letters and nothing else
      changes; white space is the blank and the control characters from tab to return. */
  lemma Ascii(tables: Unicode, c: char)
    requires c < 128 as char
    ensures Lower(tables, c) as int == (if 65 <= c as int <= 90 then c as int + 32 else c as int)
    ensures IsSpace(tables, c) <==> c as int in {9, 10, 11, 12, 13, 32}
  {
  }

  predicate All(s: string, drop: char -> bool) {
    forall i :: 0 <= i < |s| ==> drop(s[i])
  }

  lemma {:induction false} TrimLeftCuts(s: string, drop: char -> bool) returns (i: nat)
    ensures i <= |s| && TrimLeft(s, drop) == s[i..] && All(s[..i], drop) && (i < |s| ==> !drop(s[i]))
    decreases |s|
  {
    if s != "" && drop(s[0]) {
      var k := TrimLeftCuts(s[1..], drop);
      i := k + 1;
      assert s[1..][k..] == s[i..];
      assert s[..i] == [s[0]] + s[1..][..k];
    } else {
      i := 0;
      assert s[0..] == s;
    }
  }

  lemma {:induction false} TrimRightCuts(s: string, drop: char -> bool) returns (j: nat)
    ensures j <= |s| && TrimRight(s, drop) == s[..j] && All(s[j..], drop) && (j > 0 ==> !drop(s[j - 1]))
    decreases |s|
  {
    if s != "" && drop(s[|s| - 1]) {
      var front := s[..|s| - 1];
      j := TrimRightCuts(front, drop);
      assert front[..j] == s[..j] && s[j..] == front[j..] + [s[|s| - 1]];
    } else {
      j := |s|;
      assert s[..j] == s;
    }
  }

  /** Trimming cuts off the white space at both ends and nothing else. */
  lemma TrimsExactly(tables: Unicode, s: string) returns (i: nat, j: nat)
    ensures i <= j <= |s| && TrimSpace(tables, s) == s[i..j]
    ensures All(s[..i], c => IsSpace(tables, c)) && All(s[j..], c => IsSpace(tables, c))
    ensures i < j ==> !IsSpace(tables, s[i]) && !IsSpace(tables, s[j - 1])
  {
    var space := (c: char) => IsSpace(tables, c);
    i := TrimLeftCuts(s, space);
    var k := TrimRightCuts(s[i..], space);
    j := i + k;
    assert TrimLeft(s, space) == s[i..] && TrimRight(s[i..], space) == s[i..][..k];
    assert TrimSpace(tables, s) == TrimRight(TrimLeft(s, space), space) by {
      SameTrim(tables, s, space);
    }
    assert s[i..][..k] == s[i..j] && s[i..][k..] == s[j..];
    forall n | 0 <= n < |s[..i]| ensures IsSpace(tables, s[..i][n]) {
      assert space(s[..i][n]);
    }
    forall n | 0 <= n < |s[j..]| ensures IsSpace(tables, s[j..][n]) {
      assert space(s[j..][n]);
    }
  }

  lemma {:induction false} SameLeft(s: string, a: char -> bool, b: char -> bool)
    requires forall c :: a(c) == b(c)
    ensures TrimLeft(s, a) == TrimLeft(s, b)
    decreases |s|
  {
    if s != "" {
      SameLeft(s[1..], a, b);
    }
  }

  lemma {:induction false} SameRight(s: string, a: char -> bool, b: char -> bool)
    requires forall c :: a(c) == b(c)
    ensures TrimRight(s, a) == TrimRight(s, b)
    decreases |s|
  {
    if s != "" {
      SameRight(s[..|s| - 1], a, b);
    }
  }

  lemma SameTrim(tables: Unicode, s: string, space: char -> bool)
    requires forall c :: space(c) == IsSpace(tables, c)
    ensures TrimSpace(tables, s) == TrimRight(TrimLeft(s, space), space)
  {
    var own := (c: char) => IsSpace(tables, c);
    SameLeft(s, own, space);
    SameRight(TrimLeft(s, own), own, space);
  }

  /** Removing a character removes that character and nothing else. */
  lemma {:induction false} WithoutOnly(a: string, b: string, c: char)
    ensures Without(a + b, c) == Without(a, c) + Without(b, c) && Without([c], c) == ""
    ensures c !in a ==> Without(a, c) == a
    decreases |a|
  {
    assert [c][1..] == "";
    if a == "" {
      assert a + b == b;
    } else {
      assert (a + b)[1..] == a[1..] + b && a == [a[0]] + a[1..];
      WithoutOnly(a[1..], b, c);
    }
  }

  // A text of small letters, digits and signs comes through every operation as it is.
  predicate Plain(s: string) {
    forall i :: 0 <= i < |s| ==> 'a' <= s[i] <= 'z' || '0' <= s[i] <= '9' || s[i] == '+' || s[i] == '-'
  }

  lemma PlainIsTrim(tables: Unicode, s: string)
    requires Plain(s)
    ensures TrimSpace(tables, s) == s
  {
    if s != "" {
      assert !IsSpace(tables, s[0]) && !IsSpace(tables, s[|s| - 1]);
    }
  }

  lemma PlainIsLower(tables: Unicode, s: string)
    requires Plain(s)
    ensures ToLower(tables, s) == s
  {
  }

  lemma PlainStays(tables: Unicode, s: string)
    requires Plain(s)
    ensures TrimSpace(tables, s) == s && ToLower(tables, s) == s && Without(s, ' ') == s
  {
    PlainIsTrim(tables, s);
    PlainIsLower(tables, s);
    assert ' ' !in s;
    WithoutOnly(s, "", ' ');
  }
}
