/** The optional value used wherever the scripts return `None` or raise. */
module Options {
  datatype Option<+T> = None | Some(value: T)
}

/**
 The Python string operations the scripts rely on: `strip`, `rstrip`, `startswith`,
 `endswith`, `partition`, `lower` and `str.split` with a two-character separator.
 */
module Text {
  /** The characters `str.strip` removes and `str.isspace` accepts. */
  predicate IsSpace(c: char) {
    || '\U{9}' <= c <= '\U{D}'
    || '\U{1C}' <= c <= '\U{20}'
    || c in {'\U{85}', '\U{A0}', '\U{1680}', '\U{2028}', '\U{2029}', '\U{202F}', '\U{205F}', '\U{3000}'}
    || '\U{2000}' <= c <= '\U{200A}'
  }

  function StripLeft(s: string): (r: string) {
    if s != "" && IsSpace(s[0]) then StripLeft(s[1..]) else s
  }

  function StripRight(s: string): (r: string) {
    if s != "" && IsSpace(s[|s| - 1]) then StripRight(s[..|s| - 1]) else s
  }

  function Strip(s: string): (r: string) {
    StripRight(StripLeft(s))
  }

  predicate StartsWith(s: string, prefix: string) {
    prefix <= s
  }

  predicate EndsWith(s: string, suffix: string) {
    |suffix| <= |s| && s[|s| - |suffix|..] == suffix
  }

  predicate AllSpace(s: string) {
    forall i :: 0 <= i < |s| ==> IsSpace(s[i])
  }

  /**
   `str.lower`, exact for every comparison with an ASCII word: besides A-Z, only the
   Kelvin sign lowers to an ASCII letter, and no other character's lowering is all ASCII.
   */
  function LowerChar(c: char): char {
    if 'A' <= c <= 'Z' then (c as int + 32) as char
    else if c == '\U{212A}' then 'k'
    else c
  }

  function Lower(s: string): (r: string) {
    seq(|s|, i requires 0 <= i < |s| => LowerChar(s[i]))
  }

  /** `str.partition` on one character: the text before its first occurrence, and after it. */
  function TextBefore(s: string, c: char): (r: string) {
    if s == "" || s[0] == c then "" else [s[0]] + TextBefore(s[1..], c)
  }

  function TextAfter(s: string, c: char): (r: string) {
    if s == "" then "" else if s[0] == c then s[1..] else TextAfter(s[1..], c)
  }

  /** Splitting a text at a separator it contains once gives back the two parts. */
  lemma {:induction false} PartitionAtFirst(a: string, c: char, b: string)
    requires c !in a
    ensures TextBefore(a + [c] + b, c) == a && TextAfter(a + [c] + b, c) == b
  {
    if a == "" {
      assert a + [c] + b == [c] + b;
    } else {
      assert (a + [c] + b)[1..] == a[1..] + [c] + b;
      PartitionAtFirst(a[1..], c, b);
    }
  }

  /** What strip returns: the one slice with blank text on both sides and no blank at either end. */
  lemma {:induction false} StripLeftSplits(s: string) returns (k: nat)
    ensures k <= |s| && StripLeft(s) == s[k..] && AllSpace(s[..k])
    ensures StripLeft(s) != "" ==> !IsSpace(StripLeft(s)[0])
  {
    if s != "" && IsSpace(s[0]) {
      var j := StripLeftSplits(s[1..]);
      k := j + 1;
      assert s[..k] == [s[0]] + s[1..][..j];
    } else {
      k := 0;
    }
  }

  lemma {:induction false} StripRightSplits(s: string) returns (k: nat)
    ensures k <= |s| && StripRight(s) == s[..k] && AllSpace(s[k..])
    ensures StripRight(s) != "" ==> !IsSpace(s[k - 1])
  {
    if s != "" && IsSpace(s[|s| - 1]) {
      k := StripRightSplits(s[..|s| - 1]);
      assert s[k..] == s[..|s| - 1][k..] + [s[|s| - 1]];
    } else {
      k := |s|;
    }
  }

  lemma StripSplits(s: string) returns (l: nat, r: nat)
    ensures l <= r <= |s| && Strip(s) == s[l..r] && AllSpace(s[..l]) && AllSpace(s[r..])
    ensures l < r ==> !IsSpace(s[l]) && !IsSpace(s[r - 1])
  {
    l := StripLeftSplits(s);
    var k := StripRightSplits(s[l..]);
    r := l + k;
    assert s[l..][k..] == s[r..];
  }

  /** Text with no blank at either end is left alone. */
  lemma StripTrimmed(s: string)
    requires s == "" || (!IsSpace(s[0]) && !IsSpace(s[|s| - 1]))
    ensures Strip(s) == s
  {
  }

  lemma {:induction false} StripRightKeepsFirst(s: string)
    requires s != "" && !IsSpace(s[0])
    ensures StripRight(s) != "" && StripRight(s)[0] == s[0]
  {
    if IsSpace(s[|s| - 1]) {
      StripRightKeepsFirst(s[..|s| - 1]);
    }
  }

  lemma {:induction false} StripRightTwice(s: string)
    ensures StripRight(StripRight(s)) == StripRight(s)
  {
    if s != "" && IsSpace(s[|s| - 1]) {
      StripRightTwice(s[..|s| - 1]);
    }
  }

  lemma {:induction false} StripLeftIs(blank: string, rest: string)
    requires AllSpace(blank) && (rest == "" || !IsSpace(rest[0]))
    ensures StripLeft(blank + rest) == rest
  {
    if blank == "" {
      assert blank + rest == rest;
    } else {
      assert IsSpace(blank[0]);
      assert (blank + rest)[1..] == blank[1..] + rest;
      StripLeftIs(blank[1..], rest);
    }
  }

  lemma {:induction false} StripRightIs(rest: string, blank: string)
    requires AllSpace(blank) && (rest == "" || !IsSpace(rest[|rest| - 1]))
    ensures StripRight(rest + blank) == rest
  {
    if blank == "" {
      assert rest + blank == rest;
    } else {
      var last := |blank| - 1;
      assert IsSpace(blank[last]);
      assert (rest + blank)[..|rest + blank| - 1] == rest + blank[..last];
      StripRightIs(rest, blank[..last]);
    }
  }

  /** Trimming the right end first changes nothing. */
  lemma StripOfTrimmed(line: string)
    ensures Strip(StripRight(line)) == Strip(line)
  {
    var l, r := StripSplits(line);
    var left, middle, right := line[..l], line[l..r], line[r..];
    assert line == left + middle + right;
    if middle == "" {
      StripRightIs("", left + right);
      assert "" + (left + right) == line;
    } else {
      StripRightIs(left + middle, right);
      StripLeftIs(left, middle);
      StripRightIs(middle, "");
      assert middle + "" == middle;
    }
  }

  /** Blanks after a text do not change what strip gives. */
  lemma StripIgnoresBlanksAfter(s: string, blank: string)
    requires AllSpace(blank)
    ensures Strip(s + blank) == Strip(s)
  {
    var k := StripRightSplits(s);
    var rest := s[k..] + blank;
    assert s + blank == s[..k] + rest;
    StripRightIs(s[..k], rest);
    StripOfTrimmed(s + blank);
    StripOfTrimmed(s);
  }

  lemma StripIgnoresBlanksAround(before: string, s: string, after: string)
    requires AllSpace(before) && AllSpace(after) && s != "" && !IsSpace(s[0]) && !IsSpace(s[|s| - 1])
    ensures Strip(before + s + after) == s
  {
    assert before + s + after == before + (s + after);
    StripLeftIs(before, s + after);
    StripRightIs(s, after);
  }
}
