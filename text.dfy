/**
 * The string operations the forms rely on, as JavaScript defines them:
 * `trim` and `trimStart`, removal of non-digits (`replace(/\D/g, '')`),
 * `toLowerCase`, `includes`, the `<` comparison of strings, and the email
 * pattern `^[^\s@]+@[^\s@]+\.[^\s@]+$`.
 */
module Text {
  import opened Wrappers

  /** ECMAScript WhiteSpace and LineTerminator: what `trim` strips and `\s` matches. */
  predicate IsSpace(c: char) {
    c == '\t' || c == '\n' || c == '\U{000B}' || c == '\U{000C}' || c == '\r' || c == ' '
    || c == '\U{00A0}' || c == '\U{1680}' || ('\U{2000}' <= c <= '\U{200A}')
    || c == '\U{2028}' || c == '\U{2029}' || c == '\U{202F}' || c == '\U{205F}'
    || c == '\U{3000}' || c == '\U{FEFF}'
  }

  predicate AllSpace(s: string) {
    forall k :: 0 <= k < |s| ==> IsSpace(s[k])
  }

  /** Neither starts nor ends with whitespace. */
  predicate IsTrimmed(s: string) {
    s == [] || (!IsSpace(s[0]) && !IsSpace(s[|s| - 1]))
  }

  /** `s.trimStart()`: the suffix left after dropping the leading whitespace. */
  function TrimStart(s: string): (r: string)
    ensures |r| <= |s| && r == s[|s| - |r|..]
    ensures AllSpace(s[..|s| - |r|])
    ensures r == [] || !IsSpace(r[0])
  {
    if s != [] && IsSpace(s[0]) then
      var r := TrimStart(s[1..]);
      SpacePrefixGrows(s, r);
      r
    else s
  }

  /** What `TrimStart` leaves of `s[1..]`, behind a whitespace `s[0]`, is what it leaves of `s`. */
  lemma SpacePrefixGrows(s: string, r: string)
    requires s != [] && IsSpace(s[0]) && |r| <= |s| - 1
    requires r == s[1..][|s| - 1 - |r|..] && AllSpace(s[1..][..|s| - 1 - |r|])
    ensures r == s[|s| - |r|..] && AllSpace(s[..|s| - |r|])
  {
    var p := s[..|s| - |r|];
    forall k | 0 <= k < |p| ensures IsSpace(p[k]) {
      if k > 0 {
        assert p[k] == s[1..][..|s| - 1 - |r|][k - 1];
      }
    }
  }

  /** The prefix left after dropping the trailing whitespace. */
  function TrimEnd(s: string): (r: string)
    ensures |r| <= |s| && r == s[..|r|]
    ensures AllSpace(s[|r|..])
    ensures r == [] || !IsSpace(r[|r| - 1])
  {
    if s != [] && IsSpace(s[|s| - 1]) then TrimEnd(s[..|s| - 1]) else s
  }

  /**
   * `s.trim()`: both the leading and the trailing whitespace removed; empty
   * exactly when `s` is all whitespace. `TrimIsInfix` shows that the result
   * is what lies between a whitespace prefix and a whitespace suffix.
   */
  function Trim(s: string): (r: string)
    ensures IsTrimmed(r)
    ensures r == [] <==> AllSpace(s)
  {
    TrimShape(s);
    TrimEnd(TrimStart(s))
  }

  lemma TrimShape(s: string)
    ensures IsTrimmed(TrimEnd(TrimStart(s)))
    ensures TrimEnd(TrimStart(s)) == [] <==> AllSpace(s)
  {
    var t := TrimStart(s);
    var r := TrimEnd(t);
    if r == [] {
      TrimmedAwayAllSpace(s, t);
    } else {
      assert r[0] == t[0];
      assert t[0] == s[|s| - |t|];
    }
  }

  /** When nothing is left of the suffix `t`, all of `s` was whitespace. */
  lemma TrimmedAwayAllSpace(s: string, t: string)
    requires |t| <= |s| && t == s[|s| - |t|..]
    requires AllSpace(s[..|s| - |t|]) && AllSpace(t)
    ensures AllSpace(s)
  {
    assert s == s[..|s| - |t|] + t;
    AllSpaceConcat(s[..|s| - |t|], t);
  }

  lemma TrimIsInfix(s: string)
    ensures exists i :: TrimmedAt(s, Trim(s), i)
  {
    var t := TrimStart(s);
    var r := TrimEnd(t);
    var i := |s| - |t|;
    assert r == s[i..i + |r|] by {
      assert t == s[i..];
      assert r == t[..|r|];
    }
    assert s[i + |r|..] == t[|r|..];
    assert r == Trim(s);
    assert TrimmedAt(s, r, i);
  }

  /** `r` is `s` with the first `i` characters and a suffix, all whitespace, removed. */
  predicate TrimmedAt(s: string, r: string, i: int) {
    0 <= i <= |s| - |r| && r == s[i..i + |r|] && AllSpace(s[..i]) && AllSpace(s[i + |r|..])
  }

  lemma AllSpaceConcat(a: string, b: string)
    ensures AllSpace(a + b) <==> AllSpace(a) && AllSpace(b)
  {
    if AllSpace(a) && AllSpace(b) {
      forall k | 0 <= k < |a + b| ensures IsSpace((a + b)[k]) {
        if k >= |a| {
          assert (a + b)[k] == b[k - |a|];
        }
      }
    }
    if AllSpace(a + b) {
      forall k | 0 <= k < |a| ensures IsSpace(a[k]) {
        assert (a + b)[k] == a[k];
      }
      forall k | 0 <= k < |b| ensures IsSpace(b[k]) {
        assert (a + b)[|a| + k] == b[k];
      }
    }
  }

  /**
   * JavaScript's `!s.trim()`: the string is empty or whitespace only, which
   * by the contract of `Trim` is the same as `Trim(s) == []`.
   */
  predicate Blank(s: string) {
    AllSpace(s)
  }

  lemma TrimOfTrimmed(s: string)
    requires IsTrimmed(s)
    ensures Trim(s) == s
  {
  }

  /** Stripping the leading whitespace first does not change what `trim` gives. */
  lemma TrimAfterTrimStart(s: string)
    ensures Trim(TrimStart(s)) == Trim(s)
    ensures Blank(TrimStart(s)) <==> Blank(s)
  {
    var t := TrimStart(s);
    assert TrimStart(t) == t;
  }

  predicate IsDigit(c: char) {
    '0' <= c <= '9'
  }

  predicate IsDigits(s: string) {
    forall k :: 0 <= k < |s| ==> IsDigit(s[k])
  }

  /** `s.replace(/\D/g, '')`: the digits of `s`, in order. */
  function DigitsOnly(s: string): (r: string)
    ensures IsDigits(r) && |r| <= |s|
    ensures IsDigits(s) ==> r == s
  {
    if s == [] then [] else (if IsDigit(s[0]) then [s[0]] else []) + DigitsOnly(s[1..])
  }

  /** Removing non-digits works piecewise: it is a filter. */
  lemma {:induction false} DigitsOnlyAppend(a: string, b: string)
    ensures DigitsOnly(a + b) == DigitsOnly(a) + DigitsOnly(b)
  {
    if a != [] {
      assert (a + b)[1..] == a[1..] + b;
      DigitsOnlyAppend(a[1..], b);
    } else {
      assert a + b == b;
    }
  }

  /** On one character: a digit is kept, anything else is removed. */
  lemma DigitsOnlyChar(c: char)
    ensures DigitsOnly([c]) == if IsDigit(c) then [c] else []
  {
    assert [c][1..] == [];
  }

  /** ASCII case mapping of `toLowerCase`. */
  function LowerChar(c: char): (d: char)
    ensures IsUpperAscii(c) ==> d as int == c as int + 32
    ensures !IsUpperAscii(c) ==> d == c
  {
    if IsUpperAscii(c) then (c as int + 32) as char else c
  }

  predicate IsUpperAscii(c: char) {
    'A' <= c <= 'Z'
  }

  /** `s.toLowerCase()`, restricted to the ASCII letters. */
  function ToLower(s: string): (r: string)
    ensures |r| == |s|
    ensures forall k :: 0 <= k < |s| ==> r[k] == LowerChar(s[k])
  {
    if s == [] then [] else [LowerChar(s[0])] + ToLower(s[1..])
  }

  lemma ToLowerIdempotent(s: string)
    ensures ToLower(ToLower(s)) == ToLower(s)
  {
  }

  /** `s.includes(part)`. */
  function Includes(s: string, part: string): bool
    decreases |s|
  {
    if |part| > |s| then false
    else if s[..|part|] == part then true
    else Includes(s[1..], part)
  }

  /** `part` occurs in `s` starting at position `i`. */
  predicate OccursAt(s: string, part: string, i: int) {
    0 <= i <= |s| - |part| && s[i..i + |part|] == part
  }

  /** `Includes` holds exactly when `part` occurs at some position of `s`. */
  lemma {:induction false} IncludesIff(s: string, part: string)
    ensures Includes(s, part) <==> exists i :: OccursAt(s, part, i)
    decreases |s|
  {
    if |part| > |s| {
    } else if s[..|part|] == part {
      assert OccursAt(s, part, 0);
    } else {
      IncludesIff(s[1..], part);
      if Includes(s, part) {
        var i :| OccursAt(s[1..], part, i);
        SliceOfTail(s, i + 1, i + 1 + |part|);
        assert OccursAt(s, part, i + 1);
      } else {
        forall i | OccursAt(s, part, i)
          ensures false
        {
          if i > 0 {
            SliceOfTail(s, i, i + |part|);
            assert OccursAt(s[1..], part, i - 1);
          }
        }
      }
    }
  }

  lemma SliceOfTail(s: string, a: int, b: int)
    requires 1 <= a <= b <= |s|
    ensures s[1..][a - 1..b - 1] == s[a..b]
  {
    forall k | 0 <= k < b - a ensures s[1..][a - 1..b - 1][k] == s[a..b][k] {
      assert s[1..][a - 1..b - 1][k] == s[a + k];
    }
  }

  /** JavaScript's `a < b` on strings: lexicographic order of characters. */
  function StrLess(a: string, b: string): bool
  {
    if a == [] then b != []
    else if b == [] then false
    else if a[0] != b[0] then a[0] < b[0]
    else StrLess(a[1..], b[1..])
  }

  lemma {:induction false} StrLessIrreflexive(a: string)
    ensures !StrLess(a, a)
  {
    if a != [] {
      StrLessIrreflexive(a[1..]);
    }
  }

  lemma {:induction false} StrLessTransitive(a: string, b: string, c: string)
    requires StrLess(a, b) && StrLess(b, c)
    ensures StrLess(a, c)
  {
    if a != [] && b != [] && c != [] && a[0] == b[0] && b[0] == c[0] {
      StrLessTransitive(a[1..], b[1..], c[1..]);
    }
  }

  /** Any two different strings are ordered one way or the other. */
  lemma {:induction false} StrLessTotal(a: string, b: string)
    requires a != b
    ensures StrLess(a, b) || StrLess(b, a)
  {
    if a != [] && b != [] && a[0] == b[0] {
      assert a == [a[0]] + a[1..] && b == [b[0]] + b[1..];
      StrLessTotal(a[1..], b[1..]);
    }
  }

  /** The character class `[^\s@]`. */
  predicate AtomChar(c: char) {
    !IsSpace(c) && c != '@'
  }

  /** The class repeated: no whitespace and no '@'. */
  predicate EmailAtom(p: string) {
    forall k :: 0 <= k < |p| ==> AtomChar(p[k])
  }

  lemma EmailAtomConcat(a: string, b: string)
    ensures EmailAtom(a + b) <==> EmailAtom(a) && EmailAtom(b)
  {
    if EmailAtom(a) && EmailAtom(b) {
      forall k | 0 <= k < |a + b| ensures AtomChar((a + b)[k]) {
        if k >= |a| {
          assert (a + b)[k] == b[k - |a|];
        }
      }
    }
    if EmailAtom(a + b) {
      forall k | 0 <= k < |a| ensures AtomChar(a[k]) {
        assert (a + b)[k] == a[k];
      }
      forall k | 0 <= k < |b| ensures AtomChar(b[k]) {
        assert (a + b)[|a| + k] == b[k];
      }
    }
  }

  /**
   * The states of a left-to-right reading of `^[^\s@]+@[^\s@]+\.[^\s@]+$`:
   * before the first local character, in the local part, just after '@',
   * in the domain before a separating '.', just after that '.', and in the
   * final part (the only accepting state).
   */
  datatype EmailState = LocalStart | Local | DomainStart | Domain | AfterDot | Final

  /** One character read in state `st`; `None` when the pattern cannot continue. */
  function EmailStep(st: EmailState, c: char): Option<EmailState> {
    if IsSpace(c) then None
    else if c == '@' then (if st == Local then Some(DomainStart) else None)
    else match st
      case LocalStart => Some(Local)
      case Local => Some(Local)
      case DomainStart => Some(Domain)
      case Domain => Some(if c == '.' then AfterDot else Domain)
      case AfterDot => Some(Final)
      case Final => Some(Final)
  }

  /** Reads `s` from state `st`; true when the reading ends in the accepting state. */
  function EmailScan(s: string, st: EmailState): bool {
    if s == [] then st == Final
    else match EmailStep(st, s[0])
      case None => false
      case Some(next) => EmailScan(s[1..], next)
  }

  /** The test of the email pattern against `s`, as one left-to-right reading. */
  predicate IsEmail(s: string) {
    EmailScan(s, LocalStart)
  }

  lemma EmailAtomCons(s: string)
    requires s != []
    ensures EmailAtom(s) <==> AtomChar(s[0]) && EmailAtom(s[1..])
  {
    assert s == [s[0]] + s[1..];
    EmailAtomConcat([s[0]], s[1..]);
  }

  lemma EmailAtomSlice(s: string, i: int, j: int)
    requires EmailAtom(s) && 0 <= i <= j <= |s|
    ensures EmailAtom(s[i..j])
  {
    forall k | 0 <= k < j - i ensures AtomChar(s[i..j][k]) {
      assert s[i..j][k] == s[i + k];
    }
  }

  /** From the accepting state: any atom, the empty one included. */
  lemma {:induction false} ScanFinal(s: string)
    ensures EmailScan(s, Final) <==> EmailAtom(s)
  {
    if s != [] {
      EmailAtomCons(s);
      ScanFinal(s[1..]);
    }
  }

  /** A '.' with at least one character after it. */
  predicate InnerDot(s: string, j: int) {
    0 <= j && j + 1 < |s| && s[j] == '.'
  }

  /** From inside the domain: an atom holding a '.' that is not its last character. */
  lemma {:induction false} ScanDomain(s: string)
    ensures EmailScan(s, Domain) <==> EmailAtom(s) && exists j :: InnerDot(s, j)
  {
    if s != [] {
      EmailAtomCons(s);
      if IsSpace(s[0]) || s[0] == '@' {
      } else if s[0] == '.' {
        ScanFinal(s[1..]);
        if |s| > 1 {
          assert InnerDot(s, 0);
        }
      } else {
        ScanDomain(s[1..]);
        if exists j :: InnerDot(s[1..], j) {
          var j :| InnerDot(s[1..], j);
          assert InnerDot(s, j + 1);
        }
        if exists j :: InnerDot(s, j) {
          var j :| InnerDot(s, j);
          assert InnerDot(s[1..], j - 1);
        }
      }
    }
  }

  /** A split of `s` at an '@' at `i`, an atom before it, and a domain after it. */
  predicate LocalSplit(s: string, i: int) {
    0 <= i < |s| && s[i] == '@' && EmailAtom(s[..i]) && EmailScan(s[i + 1..], DomainStart)
  }

  /** From inside the local part: an atom, '@', then what the domain accepts. */
  lemma {:induction false} ScanLocal(s: string)
    ensures EmailScan(s, Local) <==> exists i :: LocalSplit(s, i)
  {
    if s == [] {
    } else if s[0] == '@' {
      assert LocalSplit(s, 0) <==> EmailScan(s[1..], DomainStart);
      forall i | 0 < i < |s| ensures !LocalSplit(s, i) {
        assert s[..i][0] == '@';
      }
    } else if IsSpace(s[0]) {
      forall i | 0 <= i < |s| ensures !LocalSplit(s, i) {
        if i > 0 {
          assert s[..i][0] == s[0];
        }
      }
    } else {
      ScanLocal(s[1..]);
      if exists i :: LocalSplit(s[1..], i) {
        var i :| LocalSplit(s[1..], i);
        LocalSplitShift(s, i);
      }
      if exists i :: LocalSplit(s, i) {
        var i :| LocalSplit(s, i);
        LocalSplitShift(s, i - 1);
      }
    }
  }

  /** Past a first atom character, the splits of `s` are those of its tail, one further on. */
  lemma LocalSplitShift(s: string, i: int)
    requires s != [] && AtomChar(s[0])
    ensures LocalSplit(s[1..], i) <==> LocalSplit(s, i + 1)
  {
    if 0 <= i < |s| - 1 {
      assert s[..i + 1] == [s[0]] + s[1..][..i];
      EmailAtomConcat([s[0]], s[1..][..i]);
      assert s[i + 2..] == s[1..][i + 1..];
    }
  }

  /** `s` is atom '@' atom '.' atom, the '@' at `i` and the '.' at `j`. */
  predicate EmailSplit(s: string, i: int, j: int) {
    0 < i && i + 1 < j && j + 1 < |s| && s[i] == '@' && s[j] == '.'
    && EmailAtom(s[..i]) && EmailAtom(s[i + 1..j]) && EmailAtom(s[j + 1..])
  }

  /** The regular expression read as a grammar. */
  ghost predicate EmailShape(s: string) {
    exists i, j :: EmailSplit(s, i, j)
  }

  /** What the domain accepts, written out on the string after the '@'. */
  lemma ScanDomainStart(d: string)
    ensures EmailScan(d, DomainStart) <==>
      d != [] && AtomChar(d[0]) && EmailAtom(d[1..]) && exists j :: InnerDot(d[1..], j)
  {
    if d != [] {
      ScanDomain(d[1..]);
    }
  }

  lemma IsEmailToShape(s: string)
    requires IsEmail(s)
    ensures EmailShape(s)
  {
    ScanLocal(s[1..]);
    var i' :| LocalSplit(s[1..], i');
    var i := i' + 1;
    assert s[..i] == [s[0]] + s[1..][..i'];
    EmailAtomConcat([s[0]], s[1..][..i']);
    var d := s[i + 1..];
    assert d == s[1..][i' + 1..];
    ScanDomainStart(d);
    var m :| InnerDot(d[1..], m);
    var j := i + 2 + m;
    EmailAtomCons(d);
    EmailAtomSlice(d, 0, m + 1);
    EmailAtomSlice(d, m + 2, |d|);
    assert j == i + 1 + (m + 1);
    assert s[i + 1..j] == s[i + 1..][..m + 1];
    assert s[i + 1..j] == d[..m + 1];
    assert s[j + 1..] == d[m + 2..];
    assert EmailSplit(s, i, j);
  }

  lemma ShapeToIsEmail(s: string, i: int, j: int)
    requires EmailSplit(s, i, j)
    ensures IsEmail(s)
  {
    var d := s[i + 1..];
    assert d == s[i + 1..j] + ([s[j]] + s[j + 1..]);
    EmailAtomConcat([s[j]], s[j + 1..]);
    EmailAtomConcat(s[i + 1..j], [s[j]] + s[j + 1..]);
    EmailAtomCons(d);
    assert InnerDot(d[1..], j - i - 2);
    ScanDomainStart(d);
    assert s[1..][i..] == d;
    EmailAtomSlice(s[..i], 1, i);
    assert s[1..][..i - 1] == s[..i][1..i];
    assert LocalSplit(s[1..], i - 1);
    ScanLocal(s[1..]);
    assert s[..i][0] == s[0];
  }

  /** The single reading agrees with the regular expression on every string. */
  lemma IsEmailIff(s: string)
    ensures IsEmail(s) <==> EmailShape(s)
  {
    if IsEmail(s) {
      IsEmailToShape(s);
    }
    if EmailShape(s) {
      var i, j :| EmailSplit(s, i, j);
      ShapeToIsEmail(s, i, j);
    }
  }
}
