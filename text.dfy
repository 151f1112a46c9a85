/**
 * The string operations the file browser borrows from Qt: QString::endsWith,
 * QString::arg with one argument, the QFileInfo name splitting (fileName,
 * baseName, completeSuffix, path) and the QByteArray to QString conversion.
 */
module Text {
  import opened Options

  newtype byte = x: int | 0 <= x < 256

  /** QString::endsWith("/") */
  predicate EndsWithSlash(s: string) {
    |s| > 0 && s[|s| - 1] == '/'
  }

  /** Appends one '/' unless `s` already ends with one. */
  function WithTrailingSlash(s: string): (r: string)
    ensures EndsWithSlash(r)
    ensures EndsWithSlash(s) ==> r == s
    ensures !EndsWithSlash(s) ==> r == s + "/"
  {
    if EndsWithSlash(s) then s else s + "/"
  }

  lemma WithTrailingSlashIdempotent(s: string)
    ensures WithTrailingSlash(WithTrailingSlash(s)) == WithTrailingSlash(s)
    ensures |WithTrailingSlash(s)| <= |s| + 1
  {
  }

  // ---------------------------------------------------------------------------
  // QString::arg with one argument. A place marker ("escape") is '%', an
  // optional 'L', then one or two decimal digits, which give its number. The
  // argument replaces every escape carrying the lowest number in the
  // template; all other text, other escapes included, is copied as it is,
  // and the inserted text is not scanned again. A template without any
  // escape is returned unchanged.

  predicate IsDigit(c: char) {
    '0' <= c <= '9'
  }

  function DigitValue(c: char): (n: nat)
    requires IsDigit(c)
    ensures n <= 9
  {
    (c as int - '0' as int) as nat
  }

  /** The escape at the start of `t`, if any: its number and its length. */
  function EscapeAt(t: string): (r: Option<(nat, nat)>)
    ensures r.Some? ==> 2 <= r.value.1 <= |t| && t[0] == '%' && r.value.0 <= 99
    ensures r.Some? <==>
      |t| >= 2 && t[0] == '%' &&
      (IsDigit(t[1]) || (t[1] == 'L' && |t| >= 3 && IsDigit(t[2])))
  {
    if |t| < 2 || t[0] != '%' then None
    else
      var j := if t[1] == 'L' then 2 else 1;
      if j < |t| && IsDigit(t[j]) then
        if j + 1 < |t| && IsDigit(t[j + 1]) then
          Some((10 * DigitValue(t[j]) + DigitValue(t[j + 1]), j + 2))
        else Some((DigitValue(t[j]), j + 1))
      else None
  }

  /** The lowest escape number found by a left-to-right scan of `t`. */
  function LowestEscape(t: string): Option<nat>
    decreases |t|
  {
    if t == [] then None
    else match EscapeAt(t)
      case Some((n, len)) =>
        var rest := LowestEscape(t[len..]);
        if rest.Some? && rest.value < n then rest else Some(n)
      case None => LowestEscape(t[1..])
  }

  /** The same scan, replacing each escape numbered `n` by `v`. */
  function FillEscape(t: string, n: nat, v: string): string
    decreases |t|
  {
    if t == [] then []
    else match EscapeAt(t)
      case Some((m, len)) => (if m == n then v else t[..len]) + FillEscape(t[len..], n, v)
      case None => [t[0]] + FillEscape(t[1..], n, v)
  }

  /** `s` holds no escape: no '%' in it is followed by a digit, or by 'L'
      and a digit. */
  predicate NoMarker(s: string) {
    forall k :: 0 <= k < |s| - 1 && s[k] == '%' ==>
      !IsDigit(s[k + 1]) && !(s[k + 1] == 'L' && k + 2 < |s| && IsDigit(s[k + 2]))
  }

  /** QString::arg(v) on the template `t`. */
  function Arg(t: string, v: string): (r: string)
    ensures NoMarker(t) ==> r == t
  {
    var r := match LowestEscape(t)
      case None => t
      case Some(n) => FillEscape(t, n, v);
    assert NoMarker(t) ==> r == t by {
      if NoMarker(t) {
        ScanPlain(t, [], 0, v);
        assert t + [] == t;
      }
    }
    r
  }

  /** A text without '%' holds no escape. */
  lemma NoPercentNoMarker(s: string)
    requires '%' !in s
    ensures NoMarker(s)
  {
    forall k | 0 <= k < |s| ensures s[k] != '%' {
      assert s[k] in s;
    }
  }

  /** The tail of an escape-free text is escape-free. */
  lemma NoMarkerTail(a: string)
    requires a != [] && NoMarker(a)
    ensures NoMarker(a[1..])
  {
    var t := a[1..];
    forall k | 0 <= k < |t| - 1 && t[k] == '%'
      ensures !IsDigit(t[k + 1]) && !(t[k + 1] == 'L' && k + 2 < |t| && IsDigit(t[k + 2]))
    {
      assert t[k] == a[k + 1] && t[k + 1] == a[k + 2];
      if k + 2 < |t| {
        assert t[k + 2] == a[k + 3];
      }
    }
  }

  /** Two escape-free texts joined hold no escape, when the join cannot
      form one: the second part starts with neither a digit nor 'L', or the
      first part has no '%' among its last two characters. */
  lemma NoMarkerJoin(p: string, q: string)
    requires NoMarker(p) && NoMarker(q)
    requires (q == [] || (!IsDigit(q[0]) && q[0] != 'L')) ||
             (p == [] || (p[|p| - 1] != '%' && (|p| < 2 || p[|p| - 2] != '%')))
    ensures NoMarker(p + q)
  {
    var t := p + q;
    forall k | 0 <= k < |t| - 1 && t[k] == '%'
      ensures !IsDigit(t[k + 1]) && !(t[k + 1] == 'L' && k + 2 < |t| && IsDigit(t[k + 2]))
    {
      if k >= |p| {
        assert t[k] == q[k - |p|] && t[k + 1] == q[k - |p| + 1];
        if k + 2 < |t| {
          assert t[k + 2] == q[k - |p| + 2];
        }
      } else if k + 2 < |p| {
        assert t[k] == p[k] && t[k + 1] == p[k + 1] && t[k + 2] == p[k + 2];
      } else if k + 2 == |p| {
        assert t[k] == p[k] && t[k + 1] == p[k + 1];
        if k + 2 < |t| {
          assert t[k + 2] == q[0];
        }
      } else {
        assert t[k] == p[k] && t[k + 1] == q[0];
        if k + 2 < |t| {
          assert t[k + 2] == q[1];
        }
      }
    }
  }

  /** No escape starts at the head of an escape-free text that is followed
      by nothing or by a '%'. */
  lemma NoEscapeAtPlain(a: string, rest: string)
    requires a != [] && NoMarker(a) && (rest == [] || rest[0] == '%')
    ensures EscapeAt(a + rest).None?
  {
    var t := a + rest;
    assert t[0] == a[0];
    if a[0] == '%' && |t| >= 2 {
      if |a| >= 2 {
        assert t[1] == a[1];
        if a[1] == 'L' && |t| >= 3 {
          if |a| >= 3 {
            assert t[2] == a[2];
          } else {
            assert t[2] == rest[0];
          }
        }
      } else {
        assert t[1] == rest[0];
      }
    }
  }

  /** The scan steps over a character that starts no escape. */
  lemma PlainStep(t: string, n: nat, v: string)
    requires t != [] && EscapeAt(t).None?
    ensures LowestEscape(t) == LowestEscape(t[1..])
    ensures FillEscape(t, n, v) == [t[0]] + FillEscape(t[1..], n, v)
  {
  }

  /** An escape-free prefix followed by nothing or by a '%' is copied by the
      scan as it is and contributes no escape. */
  lemma ScanPlain(a: string, rest: string, n: nat, v: string)
    requires NoMarker(a) && (rest == [] || rest[0] == '%')
    ensures LowestEscape(a + rest) == LowestEscape(rest)
    ensures FillEscape(a + rest, n, v) == a + FillEscape(rest, n, v)
  {
    ScanPlainLowest(a, rest);
    ScanPlainFill(a, rest, n, v);
  }

  lemma {:induction false} ScanPlainLowest(a: string, rest: string)
    requires NoMarker(a) && (rest == [] || rest[0] == '%')
    ensures LowestEscape(a + rest) == LowestEscape(rest)
    decreases |a|
  {
    if a == [] {
      assert a + rest == rest;
    } else {
      NoEscapeAtPlain(a, rest);
      NoMarkerTail(a);
      ScanPlainLowest(a[1..], rest);
      ConsStep(a, rest, []);
      PlainStep(a + rest, 0, []);
    }
  }

  lemma {:induction false} ScanPlainFill(a: string, rest: string, n: nat, v: string)
    requires NoMarker(a) && (rest == [] || rest[0] == '%')
    ensures FillEscape(a + rest, n, v) == a + FillEscape(rest, n, v)
    decreases |a|
  {
    if a == [] {
      assert a + rest == rest;
    } else {
      NoEscapeAtPlain(a, rest);
      NoMarkerTail(a);
      ScanPlainFill(a[1..], rest, n, v);
      ConsStep(a, rest, FillEscape(rest, n, v));
      PlainStep(a + rest, n, v);
    }
  }

  /** Splitting off the first character of a non-empty prefix. */
  lemma ConsStep(a: string, rest: string, f: string)
    requires a != []
    ensures (a + rest)[0] == a[0] && (a + rest)[1..] == a[1..] + rest
    ensures [a[0]] + (a[1..] + f) == a + f
  {
    assert a == [a[0]] + a[1..];
  }

  /** An escape-free text is left as it is. */
  lemma ArgIdentity(s: string, v: string)
    requires NoMarker(s)
    ensures Arg(s, v) == s
  {
  }

  /** Fills a one-escape template: `a` + "%1" + `b` becomes `a` + `v` + `b`,
      when neither part holds an escape and `b` does not continue the
      number with a digit. */
  lemma ArgFill(a: string, b: string, v: string)
    requires NoMarker(a) && NoMarker(b) && (b == [] || !IsDigit(b[0]))
    ensures Arg(a + "%1" + b, v) == a + v + b
  {
    OneThenPlain(b, 1, v);
    ScanPlain(a, ['%', '1'] + b, 1, v);
    RegroupOne(a, b, v);
  }

  /** An escape-free text after a %1 leaves that escape the only one. */
  lemma OneThenPlain(b: string, n: nat, v: string)
    requires NoMarker(b) && (b == [] || !IsDigit(b[0]))
    ensures LowestEscape(['%', '1'] + b) == Some(1)
    ensures FillEscape(['%', '1'] + b, n, v) == (if n == 1 then v else ['%', '1']) + b
  {
    ScanPlain(b, [], n, v);
    assert b + [] == b;
    ScanEscape('1', b, n, v);
  }

  lemma RegroupOne(a: string, b: string, v: string)
    ensures a + "%1" + b == a + (['%', '1'] + b) && a + (v + b) == a + v + b
  {
  }

  /** The scan across a one-digit escape at the head of the text. */
  lemma ScanEscape(d: char, u: string, n: nat, v: string)
    requires IsDigit(d) && (u == [] || !IsDigit(u[0]))
    ensures LowestEscape(['%', d] + u) ==
      if LowestEscape(u).Some? && LowestEscape(u).value < DigitValue(d) then LowestEscape(u)
      else Some(DigitValue(d))
    ensures FillEscape(['%', d] + u, n, v) ==
      (if DigitValue(d) == n then v else ['%', d]) + FillEscape(u, n, v)
  {
    var z := ['%', d] + u;
    assert z[0] == '%' && z[1] == d;
    assert EscapeAt(z) == Some((DigitValue(d), 2));
    assert z[2..] == u && z[..2] == ['%', d];
  }

  /** The tail of the two-escape template: its one escape is %1, and
      filling number 0 leaves it as it is. */
  lemma OneEscapeTail(b: string, c: string, v: string)
    requires NoMarker(b) && NoMarker(c) && (c == [] || !IsDigit(c[0]))
    ensures LowestEscape(b + ['%', '1'] + c) == Some(1)
    ensures FillEscape(b + ['%', '1'] + c, 0, v) == b + ['%', '1'] + c
  {
    OneThenPlain(c, 0, v);
    ScanPlain(b, ['%', '1'] + c, 0, v);
    RegroupOne(b, c, v);
  }

  /** Only the lowest-numbered escape is filled: with a "%0" ahead of a
      "%1", the %0 takes the argument and the %1 stays in the result. */
  lemma ArgFillsLowest(a: string, b: string, c: string, v: string)
    requires NoMarker(a) && NoMarker(b) && NoMarker(c)
    requires b == [] || !IsDigit(b[0])
    requires c == [] || !IsDigit(c[0])
    ensures Arg(a + "%0" + b + "%1" + c, v) == a + v + b + "%1" + c
  {
    var u := b + ['%', '1'] + c;
    OneEscapeTail(b, c, v);
    assert u == [] || !IsDigit(u[0]) by {
      if b == [] {
        assert u[0] == '%';
      } else {
        assert u[0] == b[0];
      }
    }
    ScanEscape('0', u, 0, v);
    ScanPlain(a, ['%', '0'] + u, 0, v);
    RegroupZero(a, b, c, v);
  }

  lemma RegroupZero(a: string, b: string, c: string, v: string)
    ensures a + "%0" + b + "%1" + c == a + (['%', '0'] + (b + ['%', '1'] + c))
    ensures a + (v + (b + ['%', '1'] + c)) == a + v + b + "%1" + c
  {
  }

  /** QString::number for a single decimal digit. */
  function Digit(i: int): (c: char)
    requires 0 <= i <= 9
    ensures '0' <= c <= '9' && c as int - '0' as int == i
  {
    ('0' as int + i) as char
  }

  // ---------------------------------------------------------------------------
  // QFileInfo name splitting.

  /** The directory part of a path, up to and including its last '/'. */
  function DirPart(p: string): string
  {
    if p == [] then []
    else if p[|p| - 1] == '/' then p
    else DirPart(p[..|p| - 1])
  }

  /** QFileInfo::fileName: what follows the last '/'. */
  function FileNameOf(p: string): string
  {
    if p == [] then []
    else if p[|p| - 1] == '/' then []
    else FileNameOf(p[..|p| - 1]) + [p[|p| - 1]]
  }

  lemma {:induction false} SplitAtLastSlash(p: string)
    ensures p == DirPart(p) + FileNameOf(p)
    ensures '/' !in FileNameOf(p)
    ensures DirPart(p) == [] || EndsWithSlash(DirPart(p))
    ensures DirPart(p) == [] <==> '/' !in p
  {
    if p != [] && p[|p| - 1] != '/' {
      var q := p[..|p| - 1];
      SplitAtLastSlash(q);
      assert p == q + [p[|p| - 1]];
      assert '/' in q ==> '/' in p;
    }
  }

  /** A name without '/' appended to a directory that ends in '/' splits
      back into that directory and that name. */
  lemma {:induction false} JoinDirName(dir: string, name: string)
    requires EndsWithSlash(dir) && '/' !in name
    ensures DirPart(dir + name) == dir && FileNameOf(dir + name) == name
    decreases |name|
  {
    if name == [] {
      assert dir + name == dir;
    } else {
      var q := name[..|name| - 1];
      assert '/' !in q by {
        forall k | 0 <= k < |q| ensures q[k] != '/' {
          assert q[k] == name[k];
        }
      }
      JoinDirName(dir, q);
      var p := dir + name;
      assert p[..|p| - 1] == dir + q;
      assert p[|p| - 1] == name[|name| - 1];
      assert name == q + [name[|name| - 1]];
    }
  }

  /** What precedes the first '.' of a file name. */
  function UpToFirstDot(s: string): string
  {
    if s == [] then []
    else if s[0] == '.' then []
    else [s[0]] + UpToFirstDot(s[1..])
  }

  /** What follows the first '.' of a file name ("" when there is none). */
  function AfterFirstDot(s: string): string
  {
    if s == [] then []
    else if s[0] == '.' then s[1..]
    else AfterFirstDot(s[1..])
  }

  /** QFileInfo::baseName */
  function BaseName(p: string): string {
    UpToFirstDot(FileNameOf(p))
  }

  /** QFileInfo::completeSuffix */
  function CompleteSuffix(p: string): string {
    AfterFirstDot(FileNameOf(p))
  }

  lemma {:induction false} SplitAtFirstDot(s: string)
    ensures '.' !in UpToFirstDot(s)
    ensures '.' in s ==> s == UpToFirstDot(s) + "." + AfterFirstDot(s)
    ensures '.' !in s ==> UpToFirstDot(s) == s && AfterFirstDot(s) == ""
  {
    if s != [] && s[0] != '.' {
      SplitAtFirstDot(s[1..]);
      assert s == [s[0]] + s[1..];
      assert '.' in s[1..] <==> '.' in s;
    }
  }

  /** A file name is its base name, a dot and its complete suffix, when it has a dot. */
  lemma FileNameSplit(p: string)
    ensures '.' !in BaseName(p)
    ensures '.' in FileNameOf(p) ==> FileNameOf(p) == BaseName(p) + "." + CompleteSuffix(p)
    ensures '.' !in FileNameOf(p) ==> BaseName(p) == FileNameOf(p) && CompleteSuffix(p) == ""
  {
    SplitAtFirstDot(FileNameOf(p));
  }

  /** QFileInfo::absolutePath for an absolute path: the directory without its
      trailing '/', or "/" for a file in the root. A path without a '/' is
      relative and resolves against the working directory, written ".". */
  function ContainingDir(p: string): (r: string)
    ensures '/' in p ==> p == r + "/" + FileNameOf(p) || (r == "/" && p == "/" + FileNameOf(p))
    ensures '/' in p ==> |r| < |p| || FileNameOf(p) == []
  {
    SplitAtLastSlash(p);
    var d := DirPart(p);
    if d == [] then "."
    else if d == "/" then "/"
    else
      assert d == d[..|d| - 1] + "/";
      d[..|d| - 1]
  }

  /** QDir::absoluteFilePath: an absolute name is kept; a relative one is
      joined to the directory with exactly one '/'. */
  function AbsoluteFilePath(dir: string, name: string): (r: string)
    ensures |name| > 0 && name[0] != '/' ==> r == WithTrailingSlash(dir) + name
    ensures |name| > 0 && name[0] == '/' ==> r == name
    ensures |name| > 0 && '/' !in name ==>
      DirPart(r) == WithTrailingSlash(dir) && FileNameOf(r) == name
  {
    if |name| > 0 && name[0] == '/' then name
    else if name == [] then dir
    else
      var r := WithTrailingSlash(dir) + name;
      assert '/' !in name ==> DirPart(r) == WithTrailingSlash(dir) && FileNameOf(r) == name by {
        if '/' !in name { JoinDirName(WithTrailingSlash(dir), name); }
      }
      r
  }

  /** The bytes of a C string: those before the first NUL byte, or all
      of them when there is none. */
  function BeforeNul(bs: seq<byte>): (p: seq<byte>)
    ensures |p| <= |bs| && p == bs[..|p|] && 0 !in p
    ensures |p| < |bs| ==> bs[|p|] == 0
  {
    if bs == [] then []
    else if bs[0] == 0 then []
    else
      var t := BeforeNul(bs[1..]);
      assert [bs[0]] + t == bs[..|t| + 1];
      [bs[0]] + t
  }

  /** QString(QByteArray): the conversion stops at the first NUL byte, and
      each byte before it becomes the character with that code. */
  function Latin1(bs: seq<byte>): (s: string)
    ensures |s| <= |bs|
    ensures forall k :: 0 <= k < |s| ==> s[k] as int == bs[k] as int && bs[k] != 0
    ensures |s| < |bs| ==> bs[|s|] == 0
  {
    var p := BeforeNul(bs);
    seq(|p|, k requires 0 <= k < |p| => p[k] as char)
  }
}
