/**
 * The .NET regular expression `^[^@\s]+@[^@\s]+\.[^@\s]+$` that the partner
 * form uses for e-mail addresses, run as a finite automaton over the input.
 * Without RegexOptions.Multiline, `^` matches only at the start and `$`
 * matches at the end or just before a final '\n'.
 */
module EmailPattern {
  import opened Nullable
  import opened Text

  /** The class `[^@\s]`. */
  predicate EmailChar(c: char) {
    c != '@' && !IsWhiteSpace(c)
  }

  predicate EmailChars(t: string) {
    forall i :: 0 <= i < |t| ==> EmailChar(t[i])
  }

  /**
   * How far the pattern has got: inside the first `[^@\s]+` (before or after its
   * first character), inside the second (before or after its first character),
   * just past a `\.` that may end it, or inside the last `[^@\s]+`.
   */
  datatype State = LocalStart | LocalPart | DomainStart | DomainPart | DotSeen | Complete

  /** One character of input; `None` when no way through the pattern is left. */
  function Step(st: State, c: char): (r: Option<State>)
    ensures r.Some? ==> !IsWhiteSpace(c)
    ensures r.Some? && st != LocalPart ==> c != '@'
  {
    if IsWhiteSpace(c) then None
    else
      match st
      case LocalStart => if c == '@' then None else Some(LocalPart)
      case LocalPart => if c == '@' then Some(DomainStart) else Some(LocalPart)
      case DomainStart => if c == '@' then None else Some(DomainPart)
      case DomainPart => if c == '@' then None else if c == '.' then Some(DotSeen) else Some(DomainPart)
      case DotSeen => if c == '@' then None else Some(Complete)
      case Complete => if c == '@' then None else Some(Complete)
  }

  /** Whether the rest `t` of the input completes the pattern from state `st`. */
  function Matches(st: State, t: string): bool
    decreases |t|
  {
    if t == [] then st == Complete
    else if t == "\n" && st == Complete then true
    else
      match Step(st, t[0])
      case None => false
      case Some(next) => Matches(next, t[1..])
  }

  /** `Regex.IsMatch(s)` for the e-mail pattern. */
  predicate IsMatch(s: string) {
    Matches(LocalStart, s)
  }

  /** The text `$` sees: the input without one final '\n'. */
  function Chomp(s: string): string
  {
    if |s| > 0 && s[|s| - 1] == '\n' then s[..|s| - 1] else s
  }

  /**
   * `$` also matches just before one final '\n': appending a line feed keeps a
   * match a match, unless the text already ended with one.
   */
  lemma DollarBeforeFinalNewline(s: string)
    ensures IsMatch(s + "\n") <==> IsMatch(s) && !(|s| > 0 && s[|s| - 1] == '\n')
  {
    var t := s + "\n";
    assert t[..|t| - 1] == s;
    IsMatchIff(t);
    IsMatchIff(s);
    if |s| > 0 && s[|s| - 1] == '\n' {
      assert IsWhiteSpace(s[|s| - 1]);
      assert !AddressShape(s);
    }
  }

  /** A '.' in `d` with at least one character on each side. */
  predicate HasInnerDot(d: string) {
    exists b :: 0 < b < |d| - 1 && d[b] == '.'
  }

  /**
   * An address in plain terms: no white space, exactly one '@', something before
   * it, and after it a '.' that is neither the first nor the last character.
   */
  predicate AddressShape(t: string) {
    && NoWhiteSpace(t)
    && exists a :: 0 < a < |t| && t[a] == '@'
                   && (forall i :: 0 <= i < |t| && i != a ==> t[i] != '@')
                   && HasInnerDot(t[a + 1..])
  }

  /** The pattern matches exactly the addresses, optionally followed by one '\n'. */
  lemma IsMatchIff(s: string)
    ensures IsMatch(s) <==> AddressShape(Chomp(s))
  {
    FromLocalStart(s);
    var t := Chomp(s);
    if IsMatch(s) {
      var a :| 0 < a && SplitAt(t, a);
      SplitShape(t, a);
    }
    if AddressShape(t) {
      var a :| 0 < a < |t| && t[a] == '@' && (forall i :: 0 <= i < |t| && i != a ==> t[i] != '@') && HasInnerDot(t[a + 1..]);
      SplitShape(t, a);
      assert SplitAt(t, a);
    }
  }

  /** The split the pattern makes at the '@' agrees with the plain description. */
  lemma SplitShape(t: string, a: int)
    requires 0 < a < |t| && t[a] == '@'
    ensures (EmailChars(t[..a]) && EmailChars(t[a + 1..]))
        <==> (NoWhiteSpace(t) && forall i :: 0 <= i < |t| && i != a ==> t[i] != '@')
  {
    assert forall i :: 0 <= i < a ==> t[..a][i] == t[i];
    assert forall i :: a < i < |t| ==> t[a + 1..][i - a - 1] == t[i];
  }

  /** Dropping the final '\n' commutes with taking off the first character. */
  lemma ChompTail(t: string)
    requires t != [] && t != "\n"
    ensures Chomp(t) == [t[0]] + Chomp(t[1..])
  {
    if |t| > 1 && t[|t| - 1] == '\n' {
      assert t[1..][..|t[1..]| - 1] == t[1..|t| - 1];
    }
  }

  /** From `Complete`, any run of `[^@\s]` finishes the match. */
  lemma {:induction false} FromComplete(t: string)
    ensures Matches(Complete, t) <==> EmailChars(Chomp(t))
    decreases |t|
  {
    if t != [] && t != "\n" {
      ChompTail(t);
      FromComplete(t[1..]);
      assert Chomp(t)[1..] == Chomp(t[1..]);
    }
  }

  /** Just past the '.', at least one more `[^@\s]` is needed. */
  lemma FromDotSeen(t: string)
    ensures Matches(DotSeen, t) <==> Chomp(t) != [] && EmailChars(Chomp(t))
  {
    if t != [] && t != "\n" {
      ChompTail(t);
      FromComplete(t[1..]);
      assert Chomp(t)[1..] == Chomp(t[1..]);
    }
  }

  /** Inside the domain, a later '.' with something after it is still needed. */
  lemma {:induction false} FromDomainPart(t: string)
    ensures Matches(DomainPart, t)
        <==> EmailChars(Chomp(t)) && exists b :: 0 <= b < |Chomp(t)| - 1 && Chomp(t)[b] == '.'
    decreases |t|
  {
    if t != [] && t != "\n" {
      var c, r := Chomp(t), Chomp(t[1..]);
      ChompTail(t);
      assert c[1..] == r;
      FromDotSeen(t[1..]);
      FromDomainPart(t[1..]);
      if exists b :: 0 <= b < |c| - 1 && c[b] == '.' {
        var b :| 0 <= b < |c| - 1 && c[b] == '.';
        if b > 0 {
          assert r[b - 1] == '.';
        }
      }
      if exists b :: 0 <= b < |r| - 1 && r[b] == '.' {
        var b :| 0 <= b < |r| - 1 && r[b] == '.';
        assert c[b + 1] == '.';
      }
    }
  }

  /** After the '@', the domain must be `[^@\s]+` with an inner '.'. */
  lemma FromDomainStart(t: string)
    ensures Matches(DomainStart, t) <==> EmailChars(Chomp(t)) && HasInnerDot(Chomp(t))
  {
    if t != [] && t != "\n" {
      var c, r := Chomp(t), Chomp(t[1..]);
      ChompTail(t);
      assert c[1..] == r;
      FromDomainPart(t[1..]);
      if HasInnerDot(c) {
        var b :| 0 < b < |c| - 1 && c[b] == '.';
        assert r[b - 1] == '.';
      }
      if exists b :: 0 <= b < |r| - 1 && r[b] == '.' {
        var b :| 0 <= b < |r| - 1 && r[b] == '.';
        assert c[b + 1] == '.';
      }
    }
  }

  /** `c` splits at an '@' at index `a` into a local part and a domain as the pattern requires. */
  predicate SplitAt(c: string, a: int) {
    && 0 <= a < |c| && c[a] == '@'
    && EmailChars(c[..a]) && EmailChars(c[a + 1..]) && HasInnerDot(c[a + 1..])
  }

  /** A split after the first character is a split of the rest, moved by one. */
  lemma ShiftSplit(c: string)
    requires |c| > 0
    ensures (exists a :: 0 < a && SplitAt(c, a)) <==> EmailChar(c[0]) && exists a :: SplitAt(c[1..], a)
  {
    if exists a :: 0 < a && SplitAt(c, a) {
      var a :| 0 < a && SplitAt(c, a);
      SplitOfRest(c, a);
    }
    if EmailChar(c[0]) && exists a :: SplitAt(c[1..], a) {
      var a :| SplitAt(c[1..], a);
      SplitOfWhole(c, a);
    }
  }

  lemma SplitOfRest(c: string, a: int)
    requires 0 < a && SplitAt(c, a)
    ensures EmailChar(c[0]) && SplitAt(c[1..], a - 1)
  {
    var r := c[1..];
    assert c[..a][0] == c[0];
    assert r[..a - 1] == c[1..a] && r[a..] == c[a + 1..];
  }

  lemma SplitOfWhole(c: string, a: int)
    requires |c| > 0 && EmailChar(c[0]) && SplitAt(c[1..], a)
    ensures SplitAt(c, a + 1)
  {
    var r := c[1..];
    assert c[..a + 1] == [c[0]] + r[..a] && c[a + 2..] == r[a + 1..];
  }

  /** A split at the very first character is a domain that follows the '@' directly. */
  lemma SplitAtStart(c: string)
    requires |c| > 0 && c[0] == '@'
    ensures (exists a :: SplitAt(c, a)) <==> EmailChars(c[1..]) && HasInnerDot(c[1..])
  {
    if EmailChars(c[1..]) && HasInnerDot(c[1..]) {
      assert c[..0] == [];
      assert SplitAt(c, 0);
    }
  }

  /** Inside the local part, an '@' may come now or later. */
  lemma {:induction false} FromLocalPart(t: string)
    ensures Matches(LocalPart, t) <==> exists a :: SplitAt(Chomp(t), a)
    decreases |t|
  {
    if t != [] && t != "\n" {
      if t[0] == '@' {
        LocalPartAt(t);
      } else {
        FromLocalPart(t[1..]);
        LocalPartGoesOn(t);
      }
    }
  }

  /** An '@' right after the local part has started leads into the domain. */
  lemma LocalPartAt(t: string)
    requires t != [] && t != "\n" && t[0] == '@'
    ensures Matches(LocalPart, t) <==> exists a :: SplitAt(Chomp(t), a)
  {
    var c := Chomp(t);
    ChompTail(t);
    assert c[1..] == Chomp(t[1..]);
    FromDomainStart(t[1..]);
    SplitAtStart(c);
  }

  /** Any other character either ends the match or extends the local part. */
  lemma LocalPartGoesOn(t: string)
    requires t != [] && t != "\n" && t[0] != '@'
    requires Matches(LocalPart, t[1..]) <==> exists a :: SplitAt(Chomp(t[1..]), a)
    ensures Matches(LocalPart, t) <==> exists a :: SplitAt(Chomp(t), a)
  {
    var c := Chomp(t);
    ChompTail(t);
    assert c[1..] == Chomp(t[1..]);
    ShiftSplit(c);
    if exists a :: SplitAt(c, a) {
      var a :| SplitAt(c, a);
      assert 0 < a;
    }
  }

  /** From the start, the local part needs at least one character before the '@'. */
  lemma FromLocalStart(s: string)
    ensures IsMatch(s) <==> exists a :: 0 < a && SplitAt(Chomp(s), a)
  {
    if s != [] && s != "\n" {
      var c := Chomp(s);
      assert c[0] == s[0] && c[1..] == Chomp(s[1..]) by {
        ChompTail(s);
      }
      FromLocalPart(s[1..]);
      ShiftSplit(c);
    }
  }
}
