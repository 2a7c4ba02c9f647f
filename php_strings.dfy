/**
 * The PHP 7.1 string built-ins that the result parser is written with:
 * strpos, strrpos, substr, str_replace, substr_count, explode, implode,
 * trim and ltrim. Each keeps PHP's own answers for its corner cases
 * (an empty needle or an offset past the end gives `false`, written
 * here as `None`), because the parser's behaviour depends on them.
 */
module PhpStrings {
  import opened Wrappers

  /** `needle` occurs in `s` starting at index `i`. */
  predicate OccursAt(s: string, needle: string, i: int)
  {
    0 <= i && i + |needle| <= |s| && s[i..i + |needle|] == needle
  }

  /** `needle` does not occur anywhere in `s`. */
  predicate Free(s: string, needle: string)
  {
    forall j | 0 <= j <= |s| :: !OccursAt(s, needle, j)
  }

  /** The first occurrence of `needle` at or after index `i`. */
  function FindFrom(s: string, needle: string, i: nat): (r: Option<nat>)
    decreases |s| - i
    ensures r.Some? ==> i <= r.value && OccursAt(s, needle, r.value)
  {
    if i + |needle| > |s| then None
    else if s[i..i + |needle|] == needle then Some(i)
    else FindFrom(s, needle, i + 1)
  }

  /** FindFrom finds the first occurrence: none lies between `i` and the one found. */
  lemma {:induction false} FindFromFirst(s: string, needle: string, i: nat)
    decreases |s| - i
    ensures forall j :: i <= j && (FindFrom(s, needle, i).None? || j < FindFrom(s, needle, i).value) ==> !OccursAt(s, needle, j)
  {
    if i + |needle| <= |s| && s[i..i + |needle|] != needle {
      FindFromFirst(s, needle, i + 1);
    }
  }

  /** The last occurrence of `needle` in the index range [lo, i]. */
  function FindLast(s: string, needle: string, lo: nat, i: int): (r: Option<nat>)
    decreases i + 1 - lo
    ensures r.Some? ==> lo <= r.value <= i && OccursAt(s, needle, r.value)
  {
    if i < lo then None
    else if OccursAt(s, needle, i) then Some(i)
    else FindLast(s, needle, lo, i - 1)
  }

  /** FindLast finds the last occurrence: none lies after the one found, up to `i`. */
  lemma {:induction false} FindLastLast(s: string, needle: string, lo: nat, i: int)
    decreases i + 1 - lo
    ensures forall j :: lo <= j <= i && (FindLast(s, needle, lo, i).None? || FindLast(s, needle, lo, i).value < j) ==> !OccursAt(s, needle, j)
  {
    if i >= lo && !OccursAt(s, needle, i) {
      FindLastLast(s, needle, lo, i - 1);
    }
  }

  /**
   * `strpos($s, $needle, $from)`: the first occurrence at or after `from`;
   * `false` for an empty needle or an offset beyond the end of `s`.
   */
  function StrPos(s: string, needle: string, from: nat := 0): (r: Option<nat>)
    ensures r.Some? ==> from <= r.value && OccursAt(s, needle, r.value)
    ensures needle == [] || from > |s| ==> r.None?
  {
    if needle == [] || from > |s| then None else FindFrom(s, needle, from)
  }

  /** strpos() answers with the first occurrence, and `false` only when there is none. */
  lemma StrPosFirst(s: string, needle: string, from: nat)
    ensures StrPos(s, needle, from).Some? ==> forall j :: from <= j < StrPos(s, needle, from).value ==> !OccursAt(s, needle, j)
    ensures StrPos(s, needle, from).None? && needle != [] && from <= |s| ==> forall j :: from <= j ==> !OccursAt(s, needle, j)
  {
    FindFromFirst(s, needle, from);
  }

  /**
   * `strrpos($s, $needle, $from)` with a non-negative offset: the last
   * occurrence that starts at or after `from`; `false` for an empty
   * needle, an empty haystack or an offset beyond the end.
   */
  function StrRPos(s: string, needle: string, from: nat := 0): (r: Option<nat>)
    ensures r.Some? ==> from <= r.value && OccursAt(s, needle, r.value)
    ensures needle == [] || s == [] || from > |s| ==> r.None?
  {
    if needle == [] || s == [] || from > |s| then None
    else FindLast(s, needle, from, |s| - |needle|)
  }

  /** strrpos() answers with the last occurrence, and `false` only when there is none at or after `from`. */
  lemma StrRPosLast(s: string, needle: string, from: nat)
    ensures StrRPos(s, needle, from).Some? ==> forall j :: StrRPos(s, needle, from).value < j ==> !OccursAt(s, needle, j)
    ensures StrRPos(s, needle, from).None? && needle != [] && from <= |s| ==> forall j :: from <= j ==> !OccursAt(s, needle, j)
  {
    if needle != [] && s != [] && from <= |s| {
      FindLastLast(s, needle, from, |s| - |needle|);
    }
  }

  /** `strpos($s, $needle) !== false`. */
  predicate Contains(s: string, needle: string)
  {
    StrPos(s, needle).Some?
  }

  /** Any occurrence of a non-empty needle makes strpos() succeed. */
  lemma OccurrenceContained(s: string, needle: string, j: nat)
    requires needle != [] && OccursAt(s, needle, j)
    ensures Contains(s, needle)
  {
    StrPosFirst(s, needle, 0);
  }

  /** Searching for a one-character needle finds it exactly when the character is in the string. */
  lemma ContainsChar(t: string, c: char)
    ensures StrPos(t, [c]).Some? <==> c in t
  {
    StrPosFirst(t, [c], 0);
    if c in t {
      var j :| 0 <= j < |t| && t[j] == c;
      assert t[j..j + 1] == [c];
      assert OccursAt(t, [c], j);
    }
    if StrPos(t, [c]).Some? {
      var p := StrPos(t, [c]).value;
      assert t[p..p + 1] == [c];
      assert t[p] == c;
    }
  }

  /** `$s[$i]` in PHP 7.1, where a negative offset counts from the end; `None` when `isset` fails. */
  function CharAt(s: string, i: int): Option<char>
  {
    if 0 <= i < |s| then Some(s[i])
    else if -|s| <= i < 0 then Some(s[|s| + i])
    else None
  }

  /**
   * `substr($s, $start, $length)` of PHP 7, step by step as the
   * interpreter computes it; `length == None` means the argument was
   * omitted. `None` as result is PHP's `false`.
   */
  function Substr(s: string, start: int, length: Option<int> := None): (r: Option<string>)
    ensures start > |s| ==> r.None?
    ensures 0 <= start <= |s| && length.None? ==> r == Some(s[start..])
    ensures 0 <= start <= |s| && length.Some? && 0 <= length.value ==>
              r == Some(s[start..if start + length.value <= |s| then start + length.value else |s|])
    ensures start < 0 && length.None? ==> r == Some(s[if -start <= |s| then |s| + start else 0..])
    ensures start == 0 && length.Some? && length.value < 0 ==>
              r == if -length.value <= |s| then Some(s[..|s| + length.value]) else None
  {
    var n := |s|;
    var l0 := if length.Some? then length.value else n;
    if length.Some? && l0 < 0 && -l0 > n then None
    else
      var l1 := if length.Some? && l0 > n then n else l0;
      if start > n then None
      else
        var f1 := if start < 0 && -start > n then 0 else start;
        if l1 < 0 && l1 + n - f1 < 0 then None
        else
          var f2 := if f1 < 0 then n + f1 else f1;
          var l2 := if l1 < 0 then (if (n - f2) + l1 < 0 then 0 else (n - f2) + l1) else l1;
          var l3 := if f2 + l2 > n then n - f2 else l2;
          assert length.None? && 0 <= start <= n ==> s[f2..f2 + l3] == s[start..];
          assert length.None? && start < 0 ==> s[f2..f2 + l3] == s[if -start <= n then n + start else 0..];
          Some(s[f2..f2 + l3])
  }

  /** A PHP string result used as a string: `false` reads as "". */
  function OrEmpty(r: Option<string>): string
  {
    r.GetOr("")
  }

  /** `substr($s, -$n)` for a positive `n`: the last `n` characters, or all of `s` when it is shorter. */
  function Tail(s: string, n: nat): (t: string)
    requires n > 0
    ensures t == s[if n <= |s| then |s| - n else 0..]
  {
    OrEmpty(Substr(s, -(n as int)))
  }

  /**
   * `str_replace($needle, $rep, $s)` for a single needle: every
   * leftmost, non-overlapping occurrence is replaced. An empty needle
   * leaves the subject as it is.
   */
  function Replace(s: string, needle: string, rep: string): (r: string)
    decreases |s|
  {
    if needle == [] || |s| < |needle| then s
    else if s[..|needle|] == needle then rep + Replace(s[|needle|..], needle, rep)
    else [s[0]] + Replace(s[1..], needle, rep)
  }

  /** `str_replace(array(...), $rep, $s)`: the needles are applied one after another. */
  function ReplaceEach(s: string, needles: seq<string>, rep: string): string
    decreases |needles|
  {
    if needles == [] then s else ReplaceEach(Replace(s, needles[0], rep), needles[1..], rep)
  }

  /** `substr_count($s, $needle)`: leftmost, non-overlapping occurrences. */
  function SubstrCount(s: string, needle: string): nat
    decreases |s|
  {
    if needle == [] || |s| < |needle| then 0
    else if s[..|needle|] == needle then 1 + SubstrCount(s[|needle|..], needle)
    else SubstrCount(s[1..], needle)
  }

  /** Replacing changes the length by the replacement's growth once per counted occurrence. */
  lemma {:induction false} ReplaceLength(s: string, needle: string, rep: string)
    ensures |Replace(s, needle, rep)| == |s| + SubstrCount(s, needle) * (|rep| - |needle|)
    decreases |s|
  {
    if needle == [] || |s| < |needle| {
    } else if s[..|needle|] == needle {
      var rest := s[|needle|..];
      ReplaceLength(rest, needle, rep);
      MulSucc(SubstrCount(rest, needle), |rep| - |needle|);
    } else {
      ReplaceLength(s[1..], needle, rep);
    }
  }

  lemma MulSucc(c: int, d: int)
    ensures (1 + c) * d == c * d + d
  {
  }

  /** Without an occurrence to count, str_replace returns its subject unchanged. */
  lemma {:induction false} ReplaceWithoutOccurrence(s: string, needle: string, rep: string)
    requires SubstrCount(s, needle) == 0
    ensures Replace(s, needle, rep) == s
    decreases |s|
  {
    if needle == [] || |s| < |needle| {
    } else {
      ReplaceWithoutOccurrence(s[1..], needle, rep);
    }
  }

  /**
   * Replacing one character: a character is in the result exactly when it
   * was in the subject and is not the replaced one, or it comes from the
   * replacement of an occurrence.
   */
  lemma {:induction false} ReplaceCharMembers(s: string, c: char, rep: string, ch: char)
    ensures ch in Replace(s, [c], rep) <==> (ch in s && ch != c) || (c in s && ch in rep)
    decreases |s|
  {
    if |s| == 0 {
    } else {
      ReplaceCharMembers(s[1..], c, rep, ch);
      assert s == [s[0]] + s[1..];
      if s[..1] == [c] {
        assert Replace(s, [c], rep) == rep + Replace(s[1..], [c], rep);
      } else {
        assert Replace(s, [c], rep) == [s[0]] + Replace(s[1..], [c], rep);
      }
    }
  }

  /** A character that no part of the needle holds survives str_replace. */
  lemma {:induction false} ReplaceKeepsForeign(s: string, needle: string, rep: string, ch: char)
    requires ch in s && ch !in needle
    ensures ch in Replace(s, needle, rep)
    decreases |s|
  {
    if needle == [] || |s| < |needle| {
    } else if s[..|needle|] == needle {
      var i :| 0 <= i < |s| && s[i] == ch;
      assert forall j :: 0 <= j < |needle| ==> s[..|needle|][j] == s[j];
      assert s[|needle|..][i - |needle|] == ch;
      ReplaceKeepsForeign(s[|needle|..], needle, rep, ch);
    } else if s[0] != ch {
      var i :| 0 <= i < |s| && s[i] == ch;
      assert s[1..][i - 1] == ch;
      ReplaceKeepsForeign(s[1..], needle, rep, ch);
    }
  }

  /** Counting a single character over two strings adds the counts of each. */
  lemma {:induction false} SubstrCountCharAppend(x: string, y: string, c: char)
    ensures SubstrCount(x + y, [c]) == SubstrCount(x, [c]) + SubstrCount(y, [c])
    decreases |x|
  {
    if x == [] {
      assert x + y == y;
    } else {
      SubstrCountCharAppend(x[1..], y, c);
      assert (x + y)[1..] == x[1..] + y;
      assert (x + y)[..1] == x[..1];
    }
  }

  /** A character the string does not hold is counted zero times. */
  lemma {:induction false} SubstrCountCharAbsent(s: string, c: char)
    requires c !in s
    ensures SubstrCount(s, [c]) == 0
    decreases |s|
  {
    if s != [] {
      assert s[..1] == [s[0]];
      SubstrCountCharAbsent(s[1..], c);
    }
  }

  /** strpos() of a character finds it just after a prefix that does not hold it. */
  lemma FirstCharAt(x: string, c: char, y: string)
    requires c !in x
    ensures StrPos(x + [c] + y, [c]) == Some(|x|)
  {
    var s := x + [c] + y;
    FindFromFirst(s, [c], 0);
    assert s[|x|..|x| + 1] == [c];
    assert OccursAt(s, [c], |x|);
    forall j | 0 <= j < |x|
      ensures !OccursAt(s, [c], j)
    {
      assert s[j..j + 1] == [x[j]] && x[j] in x;
    }
    assert StrPos(s, [c]) == FindFrom(s, [c], 0);
  }

  /** `explode($sep, $s)`: the pieces between the leftmost, non-overlapping separators. */
  function Explode(sep: string, s: string): (parts: seq<string>)
    requires sep != []
    decreases |s|
    ensures |parts| >= 1
  {
    var found := FindFrom(s, sep, 0);
    if found.None? then [s]
    else [s[..found.value]] + Explode(sep, s[found.value + |sep|..])
  }

  /** No piece of an explode contains the separator. */
  lemma {:induction false} ExplodePiecesFree(sep: string, s: string)
    requires sep != []
    ensures forall k :: 0 <= k < |Explode(sep, s)| ==> Free(Explode(sep, s)[k], sep)
    decreases |s|
  {
    hide FindFrom;
    var found := FindFrom(s, sep, 0);
    FindFromFirst(s, sep, 0);
    if found.Some? {
      var i := found.value;
      var head := s[..i];
      assert Free(head, sep) by {
        forall j | 0 <= j <= |head| ensures !OccursAt(head, sep, j) {
          if j + |sep| <= |head| {
            assert head[j..j + |sep|] == s[j..j + |sep|];
            assert !OccursAt(s, sep, j);
          }
        }
      }
      ExplodePiecesFree(sep, s[i + |sep|..]);
      assert Explode(sep, s) == [head] + Explode(sep, s[i + |sep|..]);
    }
  }

  /** `implode($glue, $parts)`. */
  function Implode(glue: string, parts: seq<string>): string
    decreases |parts|
  {
    if |parts| == 0 then ""
    else if |parts| == 1 then parts[0]
    else parts[0] + glue + Implode(glue, parts[1..])
  }

  /** Every character of a piece is a character of the imploded string. */
  lemma {:induction false} ImplodeMembers(glue: string, parts: seq<string>, k: nat, c: char)
    requires k < |parts| && c in parts[k]
    ensures c in Implode(glue, parts)
    decreases |parts|
  {
    if |parts| > 1 && k > 0 {
      ImplodeMembers(glue, parts[1..], k - 1, c);
    }
  }

  /** A character of the imploded string that is not in the glue comes from one of the pieces. */
  lemma {:induction false} ImplodeMembersFromPieces(glue: string, parts: seq<string>, c: char)
    requires c in Implode(glue, parts) && c !in glue
    ensures exists k :: 0 <= k < |parts| && c in parts[k]
    decreases |parts|
  {
    if |parts| > 1 {
      if c !in parts[0] {
        ImplodeMembersFromPieces(glue, parts[1..], c);
        var k :| 0 <= k < |parts[1..]| && c in parts[1..][k];
        assert c in parts[k + 1];
      }
    }
  }

  lemma SplitAround(s: string, i: nat, j: nat)
    requires i <= j <= |s|
    ensures s == s[..i] + s[i..j] + s[j..]
  {
  }

  /** One step of explode: the piece before the first separator, then the rest exploded. */
  lemma {:induction false} ExplodeStep(sep: string, s: string, i: nat)
    requires sep != [] && FindFrom(s, sep, 0) == Some(i)
    ensures Explode(sep, s) == [s[..i]] + Explode(sep, s[i + |sep|..])
  {
  }

  /** Joining the pieces of an explode with the same separator gives back the string. */
  lemma {:induction false} ImplodeExplode(sep: string, s: string)
    requires sep != []
    ensures Implode(sep, Explode(sep, s)) == s
    decreases |s|
  {
    var found := FindFrom(s, sep, 0);
    if found.Some? {
      var i := found.value;
      var rest := s[i + |sep|..];
      var tail := Explode(sep, rest);
      ExplodeStep(sep, s, i);
      ImplodeExplode(sep, rest);
      var parts := [s[..i]] + tail;
      assert |parts| >= 2 && parts[0] == s[..i] && parts[1..] == tail;
      assert Implode(sep, parts) == s[..i] + sep + Implode(sep, tail);
      assert s[i..i + |sep|] == sep;
      SplitAround(s, i, i + |sep|);
    }
  }

  /** A character absent from a string occurs nowhere in it as a one-character needle. */
  lemma AbsentChar(c: char, t: string)
    requires c !in t
    ensures forall j :: !OccursAt(t, [c], j)
  {
    forall j ensures !OccursAt(t, [c], j) {
      if 0 <= j && j + 1 <= |t| {
        assert t[j..j + 1][0] == t[j];
      }
    }
  }

  /** A one-character separator found first right after a piece that does not hold it. */
  lemma FirstSeparator(c: char, head: string, rest: string)
    requires c !in head
    ensures FindFrom(head + [c] + rest, [c], 0) == Some(|head|)
  {
    hide FindFrom;
    var s := head + [c] + rest;
    assert OccursAt(s, [c], |head|) by {
      assert s[|head|..|head| + 1] == [c];
    }
    forall j | 0 <= j < |head| ensures !OccursAt(s, [c], j) {
      AbsentChar(c, head);
      assert !OccursAt(head, [c], j);
      if j + 1 <= |s| {
        assert s[j..j + 1] == head[j..j + 1];
      }
    }
    FindFromFirst(s, [c], 0);
  }

  /** Exploding the implode of pieces free of a one-character separator gives the pieces back. */
  lemma {:induction false} ExplodeImplode(c: char, parts: seq<string>)
    requires |parts| >= 1 && forall k :: 0 <= k < |parts| ==> c !in parts[k]
    ensures Explode([c], Implode([c], parts)) == parts
    decreases |parts|
  {
    if |parts| == 1 {
      AbsentChar(c, parts[0]);
    } else {
      var rest := Implode([c], parts[1..]);
      var s := parts[0] + [c] + rest;
      assert Implode([c], parts) == s;
      FirstSeparator(c, parts[0], rest);
      ExplodeStep([c], s, |parts[0]|);
      assert s[..|parts[0]|] == parts[0];
      assert s[|parts[0]| + 1..] == rest;
      ExplodeImplode(c, parts[1..]);
    }
  }

  /** The characters PHP's trim() strips: space, tab, newline, carriage return, NUL and vertical tab. */
  predicate IsTrimChar(c: char)
  {
    c == ' ' || c == '\t' || c == '\n' || c == '\r' || c == '\0' || c == '\U{B}'
  }

  /** `ltrim($s)`: the longest suffix that does not start with a trim character. */
  function LTrim(s: string): (r: string)
    decreases |s|
    ensures |r| <= |s| && r == s[|s| - |r|..]
    ensures r == [] || !IsTrimChar(r[0])
  {
    if s != [] && IsTrimChar(s[0]) then LTrim(s[1..]) else s
  }

  /** ltrim() removes trim characters only. */
  lemma {:induction false} LTrimDropsTrimChars(s: string)
    decreases |s|
    ensures forall i :: 0 <= i < |s| - |LTrim(s)| ==> IsTrimChar(s[i])
  {
    if s != [] && IsTrimChar(s[0]) {
      LTrimDropsTrimChars(s[1..]);
      forall i | 0 <= i < |s| - |LTrim(s)|
        ensures IsTrimChar(s[i])
      {
        if i > 0 {
          assert s[i] == s[1..][i - 1];
        }
      }
    }
  }

  /** `rtrim($s)`: the longest prefix that does not end with a trim character. */
  function RTrim(s: string): (r: string)
    decreases |s|
    ensures |r| <= |s| && r == s[..|r|]
    ensures r == [] || !IsTrimChar(r[|r| - 1])
  {
    if s != [] && IsTrimChar(s[|s| - 1]) then RTrim(s[..|s| - 1]) else s
  }

  /** rtrim() removes trim characters only. */
  lemma {:induction false} RTrimDropsTrimChars(s: string)
    decreases |s|
    ensures forall i :: |RTrim(s)| <= i < |s| ==> IsTrimChar(s[i])
  {
    if s != [] && IsTrimChar(s[|s| - 1]) {
      RTrimDropsTrimChars(s[..|s| - 1]);
      forall i | |RTrim(s)| <= i < |s|
        ensures IsTrimChar(s[i])
      {
        if i < |s| - 1 {
          assert s[i] == s[..|s| - 1][i];
        }
      }
    }
  }

  /** `trim($s)`. */
  function Trim(s: string): (r: string)
    ensures r == [] || (!IsTrimChar(r[0]) && !IsTrimChar(r[|r| - 1]))
    ensures |r| <= |s|
  {
    RTrim(LTrim(s))
  }

  /** trim() introduces no character. */
  lemma TrimMembers(s: string)
    ensures forall c :: c in Trim(s) ==> c in s
  {
    var l := LTrim(s);
    var r := RTrim(l);
    assert forall c :: c in r ==> c in l;
    assert forall c :: c in l ==> c in s;
  }

  /** trim() keeps one contiguous slice and removes only trim characters around it. */
  lemma TrimSlice(s: string)
    ensures var a := |s| - |LTrim(s)|; a + |Trim(s)| <= |s| && Trim(s) == s[a..a + |Trim(s)|]
    ensures var a := |s| - |LTrim(s)|; forall i :: 0 <= i < |s| && (i < a || a + |Trim(s)| <= i) ==> IsTrimChar(s[i])
  {
    hide LTrim, RTrim;
    var l := LTrim(s);
    var r := RTrim(l);
    var a := |s| - |l|;
    LTrimDropsTrimChars(s);
    RTrimDropsTrimChars(l);
    assert r == Trim(s);
    assert l == s[a..];
    assert r == l[..|r|];
    forall i | 0 <= i < |s| && (i < a || a + |r| <= i)
      ensures IsTrimChar(s[i])
    {
      if i >= a + |r| {
        assert s[i] == l[i - a];
      }
    }
  }

  /** ltrim() of a string with a trim character appended: the character stays unless nothing else does. */
  lemma {:induction false} LTrimAppend(s: string, c: char)
    requires IsTrimChar(c)
    decreases |s|
    ensures LTrim(s + [c]) == if LTrim(s) == [] then [] else LTrim(s) + [c]
  {
    if s != [] && IsTrimChar(s[0]) {
      assert (s + [c])[1..] == s[1..] + [c];
      LTrimAppend(s[1..], c);
    }
  }

  /** A trailing trim character, such as the newline that ends a file, does not change trim(). */
  lemma TrimDropsTrailing(s: string, c: char)
    requires IsTrimChar(c)
    ensures Trim(s + [c]) == Trim(s)
  {
    LTrimAppend(s, c);
    var l := LTrim(s);
    if l != [] {
      assert (l + [c])[..|l|] == l;
    }
  }

  /** `strstr($s, $needle)`: the rest of `s` from the first occurrence of `needle`, or `false`. */
  function StrStr(s: string, needle: string): (r: Option<string>)
    ensures r.Some? ==> |r.value| <= |s| && r.value == s[|s| - |r.value|..]
    ensures r.Some? ==> OccursAt(s, needle, |s| - |r.value|)
    ensures r.None? ==> needle == [] || forall j :: 0 <= j ==> !OccursAt(s, needle, j)
  {
    StrPosFirst(s, needle, 0);
    var p := StrPos(s, needle);
    if p.Some? then Some(s[p.value..]) else None
  }
}
