/**
 * The tokeniser the result parser applies to a template line and to each
 * candidate log line: every `=` is padded to ` = `, the space-out
 * characters become spaces, runs of spaces are collapsed, the ends are
 * trimmed and the text is split on single spaces.
 */
module Tokenizer {
  import opened PhpStrings

  /** Each listed character becomes a space, every other character stays. */
  function SpaceOut(s: string, chars: seq<char>): (r: string)
    ensures |r| == |s|
    decreases |s|
  {
    if s == [] then [] else [if s[0] in chars then ' ' else s[0]] + SpaceOut(s[1..], chars)
  }

  /** Each character of the line is kept, or turned into a space when it is one of `chars`. */
  lemma {:induction false} SpaceOutAt(s: string, chars: seq<char>)
    decreases |s|
    ensures forall i :: 0 <= i < |s| ==> SpaceOut(s, chars)[i] == (if s[i] in chars then ' ' else s[i])
  {
    if s != [] {
      SpaceOutAt(s[1..], chars);
      forall i | 0 <= i < |s|
        ensures SpaceOut(s, chars)[i] == (if s[i] in chars then ' ' else s[i])
      {
        if i > 0 {
          assert s[i] == s[1..][i - 1];
        }
      }
    }
  }

  /** The one-character needles `str_replace` receives for a list of characters. */
  function Needles(chars: seq<char>): (n: seq<string>)
    ensures |n| == |chars|
    ensures forall i :: 0 <= i < |chars| ==> n[i] == [chars[i]]
  {
    seq(|chars|, i requires 0 <= i < |chars| => [chars[i]])
  }

  lemma {:induction false} ReplaceOneChar(s: string, c: char)
    ensures Replace(s, [c], " ") == SpaceOut(s, [c])
    decreases |s|
  {
    if s != [] {
      ReplaceOneChar(s[1..], c);
      if s[..1] == [c] {
        assert s[0] == c;
      } else {
        assert s[0] != c;
      }
    }
  }

  lemma {:induction false} SpaceOutSplit(s: string, c: char, rest: seq<char>)
    ensures SpaceOut(SpaceOut(s, [c]), rest) == SpaceOut(s, [c] + rest)
  {
    var a := SpaceOut(SpaceOut(s, [c]), rest);
    var b := SpaceOut(s, [c] + rest);
    SpaceOutAt(s, [c]);
    SpaceOutAt(SpaceOut(s, [c]), rest);
    SpaceOutAt(s, [c] + rest);
    assert |a| == |b|;
    forall i | 0 <= i < |s| ensures a[i] == b[i] {
      assert s[i] in [c] + rest <==> s[i] == c || s[i] in rest;
    }
  }

  /**
   * `str_replace($space_out_chars, ' ', $s)` with one-character needles
   * replaces each listed character by a space, whatever the order of the
   * list.
   */
  lemma {:induction false} SpaceOutIsStrReplace(s: string, chars: seq<char>)
    ensures ReplaceEach(s, Needles(chars), " ") == SpaceOut(s, chars)
    decreases |chars|
  {
    if chars == [] {
      var r := SpaceOut(s, chars);
      SpaceOutAt(s, chars);
      assert r == s;
    } else {
      var c := chars[0];
      var rest := chars[1..];
      assert Needles(chars)[0] == [c];
      assert Needles(chars)[1..] == Needles(rest);
      ReplaceOneChar(s, c);
      SpaceOutIsStrReplace(SpaceOut(s, [c]), rest);
      SpaceOutSplit(s, c, rest);
      assert [c] + rest == chars;
    }
  }

  /** Runs of spaces collapsed to a single space. */
  function CollapseSpaces(s: string): (r: string)
    ensures |r| <= |s|
    ensures s != [] ==> r != [] && r[0] == s[0] && r[|r| - 1] == s[|s| - 1]
    decreases |s|
  {
    if |s| <= 1 then s
    else if s[0] == ' ' && s[1] == ' ' then CollapseSpaces(s[1..])
    else [s[0]] + CollapseSpaces(s[1..])
  }

  /**
   * `pts_strings::trim_spaces`: runs of spaces collapsed, then the ends
   * trimmed as by PHP's trim().
   */
  function TrimSpaces(s: string): string
  {
    Trim(CollapseSpaces(s))
  }

  /**
   * The tokens of a line: `=` padded with spaces, the space-out
   * characters turned into spaces, spaces collapsed and trimmed, split
   * on single spaces.
   */
  function Tokenize(line: string, chars: seq<char>): (tokens: seq<string>)
    ensures |tokens| >= 1
  {
    Explode(" ", TrimSpaces(SpaceOut(Replace(line, "=", " = "), chars)))
  }

  /** No two spaces stand next to each other. */
  predicate NoDoubleSpace(s: string)
  {
    forall i :: 0 <= i < |s| - 1 ==> !(s[i] == ' ' && s[i + 1] == ' ')
  }

  /** Every `=` has a space (or the end of the text) on each side. */
  predicate EqualsSpaced(s: string)
  {
    forall i :: 0 <= i < |s| && s[i] == '=' ==> (i == 0 || s[i - 1] == ' ') && (i == |s| - 1 || s[i + 1] == ' ')
  }

  lemma SliceKeepsSpacing(s: string, a: nat, b: nat)
    requires a <= b <= |s|
    ensures NoDoubleSpace(s) ==> NoDoubleSpace(s[a..b])
    ensures EqualsSpaced(s) ==> EqualsSpaced(s[a..b])
  {
    var t := s[a..b];
    assert forall i :: 0 <= i < |t| ==> t[i] == s[a + i];
  }

  lemma {:induction false} CollapseMembers(s: string, c: char)
    ensures c in CollapseSpaces(s) ==> c in s
    ensures c in s && c != ' ' ==> c in CollapseSpaces(s)
    decreases |s|
  {
    if |s| > 1 {
      CollapseMembers(s[1..], c);
      assert c in s <==> c == s[0] || c in s[1..];
    }
  }

  lemma {:induction false} CollapseNoDoubleSpace(s: string)
    ensures NoDoubleSpace(CollapseSpaces(s))
    decreases |s|
  {
    if |s| > 1 {
      CollapseNoDoubleSpace(s[1..]);
      if !(s[0] == ' ' && s[1] == ' ') {
        var x := CollapseSpaces(s[1..]);
        var r := [s[0]] + x;
        assert x[0] == s[1];
        forall i | 0 <= i < |r| - 1 ensures !(r[i] == ' ' && r[i + 1] == ' ') {
          if i > 0 {
            assert r[i] == x[i - 1] && r[i + 1] == x[i];
          }
        }
      }
    }
  }

  lemma {:induction false} CollapseEqualsSpaced(s: string)
    requires EqualsSpaced(s)
    ensures EqualsSpaced(CollapseSpaces(s))
    decreases |s|
  {
    if |s| > 1 {
      var rest := s[1..];
      SliceKeepsSpacing(s, 1, |s|);
      CollapseEqualsSpaced(rest);
      if !(s[0] == ' ' && s[1] == ' ') {
        var x := CollapseSpaces(rest);
        var r := [s[0]] + x;
        assert x[0] == s[1];
        forall i | 0 <= i < |r| && r[i] == '='
          ensures (i == 0 || r[i - 1] == ' ') && (i == |r| - 1 || r[i + 1] == ' ')
        {
          if i == 0 {
            assert s[0] == '=';
            assert r[1] == s[1];
          } else {
            assert r[i] == x[i - 1];
            if i == 1 {
              assert s[1] == '=';
            } else {
              assert r[i - 1] == x[i - 2];
            }
            if i < |r| - 1 {
              assert r[i + 1] == x[i];
            }
          }
        }
      }
    }
  }

  /** Padding every `=` with spaces leaves each `=` between spaces, and never starts with `=`. */
  lemma {:induction false} PaddedEquals(s: string)
    ensures var r := Replace(s, "=", " = "); EqualsSpaced(r) && (r == [] || r[0] != '=')
    decreases |s|
  {
    if s != [] {
      PaddedEquals(s[1..]);
      var x := Replace(s[1..], "=", " = ");
      if s[..1] == "=" {
        var r := " = " + x;
        assert Replace(s, "=", " = ") == r;
        forall i | 0 <= i < |r| && r[i] == '='
          ensures (i == 0 || r[i - 1] == ' ') && (i == |r| - 1 || r[i + 1] == ' ')
        {
          if i >= 3 {
            assert r[i] == x[i - 3];
            if i > 3 {
              assert r[i - 1] == x[i - 4];
            }
            if i < |r| - 1 {
              assert r[i + 1] == x[i - 2];
            }
          }
        }
      } else {
        var r := [s[0]] + x;
        assert s[0] != '=';
        assert Replace(s, "=", " = ") == r;
        forall i | 0 <= i < |r| && r[i] == '='
          ensures (i == 0 || r[i - 1] == ' ') && (i == |r| - 1 || r[i + 1] == ' ')
        {
          assert i > 0 && r[i] == x[i - 1];
          assert i > 1;
          assert r[i - 1] == x[i - 2];
          if i < |r| - 1 {
            assert r[i + 1] == x[i];
          }
        }
      }
    }
  }

  lemma SpaceOccurrence(s: string, j: int)
    ensures OccursAt(s, " ", j) <==> 0 <= j < |s| && s[j] == ' '
  {
    if 0 <= j < |s| {
      assert s[j..j + 1] == [s[j]];
    }
  }

  lemma FreeOfSpace(t: string)
    requires Free(t, " ")
    ensures ' ' !in t
  {
    forall j | 0 <= j < |t| ensures t[j] != ' ' {
      SpaceOccurrence(t, j);
    }
  }

  /** Splitting a text without doubled, leading or trailing spaces gives no empty piece. */
  lemma {:induction false} ExplodeSpacedPieces(w: string)
    requires NoDoubleSpace(w) && w != [] && w[0] != ' ' && w[|w| - 1] != ' '
    ensures forall k :: 0 <= k < |Explode(" ", w)| ==> Explode(" ", w)[k] != []
    decreases |w|
  {
    var found := FindFrom(w, " ", 0);
    if found.Some? {
      var i := found.value;
      SpaceOccurrence(w, i);
      SpaceOccurrence(w, 0);
      assert i > 0;
      assert i < |w| - 1;
      var rest := w[i + 1..];
      SliceKeepsSpacing(w, i + 1, |w|);
      assert rest[0] == w[i + 1];
      ExplodeSpacedPieces(rest);
      ExplodeStep(" ", w, i);
    }
  }

  /** In a text where every `=` is spaced, a piece holding `=` is exactly `=`. */
  lemma {:induction false} ExplodeEqualsAlone(w: string)
    requires EqualsSpaced(w)
    ensures forall k :: 0 <= k < |Explode(" ", w)| && '=' in Explode(" ", w)[k] ==> Explode(" ", w)[k] == "="
    decreases |w|
  {
    var found := FindFrom(w, " ", 0);
    FindFromFirst(w, " ", 0);
    if found.Some? {
      var i := found.value;
      var head := w[..i];
      var rest := w[i + 1..];
      SliceKeepsSpacing(w, i + 1, |w|);
      ExplodeEqualsAlone(rest);
      ExplodeStep(" ", w, i);
      SpaceOccurrence(w, i);
      if '=' in head {
        var j :| 0 <= j < |head| && head[j] == '=';
        assert w[j] == '=';
        SpaceOccurrence(w, j - 1);
        SpaceOccurrence(w, j + 1);
        assert head == "=";
      }
    } else {
      if '=' in w {
        var j :| 0 <= j < |w| && w[j] == '=';
        SpaceOccurrence(w, j - 1);
        SpaceOccurrence(w, j + 1);
        assert w == "=";
      }
    }
  }

  /** What the tokens are split from. */
  function Spaced(line: string, chars: seq<char>): string
  {
    TrimSpaces(SpaceOut(Replace(line, "=", " = "), chars))
  }

  /** Spacing out other characters keeps every `=` padded. */
  lemma SpaceOutKeepsEquals(p: string, chars: seq<char>)
    requires '=' !in chars && EqualsSpaced(p)
    ensures EqualsSpaced(SpaceOut(p, chars))
  {
    var u := SpaceOut(p, chars);
    SpaceOutAt(p, chars);
    forall i | 0 <= i < |u| && u[i] == '='
      ensures (i == 0 || u[i - 1] == ' ') && (i == |u| - 1 || u[i + 1] == ' ')
    {
      assert p[i] == '=';
    }
  }

  lemma SpacedProperties(line: string, chars: seq<char>)
    ensures NoDoubleSpace(Spaced(line, chars))
    ensures '=' !in chars ==> EqualsSpaced(Spaced(line, chars))
  {
    hide Replace, SpaceOut, CollapseSpaces, LTrim, RTrim, Trim, NoDoubleSpace, EqualsSpaced;
    var p := Replace(line, "=", " = ");
    var u := SpaceOut(p, chars);
    var c := CollapseSpaces(u);
    CollapseNoDoubleSpace(u);
    TrimSlice(c);
    var a := |c| - |LTrim(c)|;
    SliceKeepsSpacing(c, a, a + |Trim(c)|);
    if '=' !in chars {
      PaddedEquals(line);
      SpaceOutKeepsEquals(p, chars);
      CollapseEqualsSpaced(u);
    }
  }

  /**
   * A token never holds a space or a space-out character, and every
   * character of a token comes from the line.
   */
  lemma TokenCharacters(line: string, chars: seq<char>, k: nat, c: char)
    requires k < |Tokenize(line, chars)| && c in Tokenize(line, chars)[k]
    ensures c != ' ' && c !in chars && c in line
  {
    var tokens := Tokenize(line, chars);
    var w := Spaced(line, chars);
    var p := Replace(line, "=", " = ");
    var u := SpaceOut(p, chars);
    ExplodePiecesFree(" ", w);
    FreeOfSpace(tokens[k]);
    ImplodeExplode(" ", w);
    ImplodeMembers(" ", tokens, k, c);
    TrimMembers(CollapseSpaces(u));
    CollapseMembers(u, c);
    SpaceOutAt(p, chars);
    var i :| 0 <= i < |u| && u[i] == c;
    ReplaceCharMembers(line, '=', " = ", c);
    assert p[i] in p;
  }

  /**
   * Every character of the line that is not `=`, a space-out character
   * or white space trim() removes survives in some token.
   */
  lemma TokenizeKeeps(line: string, chars: seq<char>, c: char)
    requires c in line && c != '=' && c !in chars && !IsTrimChar(c)
    ensures exists k :: 0 <= k < |Tokenize(line, chars)| && c in Tokenize(line, chars)[k]
  {
    var p := Replace(line, "=", " = ");
    var u := SpaceOut(p, chars);
    ReplaceCharMembers(line, '=', " = ", c);
    SpaceOutKeeps(p, chars, c);
    CollapseMembers(u, c);
    TrimKeeps(CollapseSpaces(u), c);
    var w := Spaced(line, chars);
    var tokens := Tokenize(line, chars);
    assert tokens == Explode(" ", w);
    ImplodeExplode(" ", w);
    ImplodeMembersFromPieces(" ", tokens, c);
    var k :| 0 <= k < |tokens| && c in tokens[k];
  }

  lemma SpaceOutKeeps(s: string, chars: seq<char>, c: char)
    requires c in s && c !in chars
    ensures c in SpaceOut(s, chars)
  {
    var i :| 0 <= i < |s| && s[i] == c;
    SpaceOutAt(s, chars);
    assert SpaceOut(s, chars)[i] == c;
  }

  lemma TrimKeeps(s: string, c: char)
    requires c in s && !IsTrimChar(c)
    ensures c in Trim(s)
  {
    var m :| 0 <= m < |s| && s[m] == c;
    TrimSlice(s);
    var a := |s| - |LTrim(s)|;
    assert a <= m < a + |Trim(s)|;
    assert Trim(s)[m - a] == c;
  }

  /** The tokens are all non-empty, unless the whole line tokenises to the single empty token. */
  lemma TokensNonEmpty(line: string, chars: seq<char>)
    ensures Tokenize(line, chars) == [""] || forall k :: 0 <= k < |Tokenize(line, chars)| ==> Tokenize(line, chars)[k] != ""
  {
    var w := Spaced(line, chars);
    SpacedProperties(line, chars);
    if w == [] {
      assert FindFrom(w, " ", 0).None?;
    } else {
      ExplodeSpacedPieces(w);
    }
  }

  /** Because `=` is padded before splitting, a token holding `=` is the token `=` itself. */
  lemma EqualsSignStandsAlone(line: string, chars: seq<char>, k: nat)
    requires '=' !in chars && k < |Tokenize(line, chars)| && '=' in Tokenize(line, chars)[k]
    ensures Tokenize(line, chars)[k] == "="
  {
    SpacedProperties(line, chars);
    ExplodeEqualsAlone(Spaced(line, chars));
  }

  /** Joining the tokens with single spaces gives back the padded, spaced-out, collapsed and trimmed line. */
  lemma TokensRejoin(line: string, chars: seq<char>)
    ensures Implode(" ", Tokenize(line, chars)) == Spaced(line, chars)
    ensures NoDoubleSpace(Implode(" ", Tokenize(line, chars)))
  {
    ImplodeExplode(" ", Spaced(line, chars));
    SpacedProperties(line, chars);
  }
}
