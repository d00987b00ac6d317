/**
 * The path translator: rewrites an oRPC route template into the pattern syntax of
 * the interception runtime. `{+name}` (catch-all) becomes `:name*`, then every
 * remaining `{name}` becomes `:name`; anything else is copied verbatim.
 *
 * Each pass is a global, left-to-right, non-overlapping regular-expression
 * replacement. It is modelled as a scanner: at each position the pattern either
 * matches (the replacement is emitted and the whole match skipped) or one character
 * is copied and the scan moves on by one.
 */
module PathTranslator {
  import opened Wrappers

  /** `[a-zA-Z_]`: the characters an identifier may start with. */
  predicate IsIdentStart(c: char) {
    ('a' <= c <= 'z') || ('A' <= c <= 'Z') || c == '_'
  }

  /** `[a-zA-Z0-9_]`: the characters an identifier may continue with. */
  predicate IsIdentChar(c: char) {
    IsIdentStart(c) || ('0' <= c <= '9')
  }

  /** A string the group `([a-zA-Z_][a-zA-Z0-9_]*)` matches in full. */
  predicate IsIdentifier(s: string) {
    |s| > 0 && IsIdentStart(s[0]) && forall i :: 0 <= i < |s| ==> IsIdentChar(s[i])
  }

  /** The two rewriting rules, applied in this order. */
  datatype Pattern = CatchAll | Plain

  /** What the pattern requires in front of the identifier. */
  function Opener(p: Pattern): string {
    match p
    case CatchAll => "{+"
    case Plain => "{"
  }

  /** `s` starts with the opener of `p`, compared character by character. */
  predicate HasOpener(p: Pattern, s: string) {
    match p
    case CatchAll => |s| >= 2 && s[0] == '{' && s[1] == '+'
    case Plain => |s| >= 1 && s[0] == '{'
  }

  lemma HasOpenerOf(p: Pattern, rest: string)
    ensures HasOpener(p, Opener(p) + rest)
  {
  }

  /** The replacement text `:$1*` or `:$1`. */
  function Replacement(p: Pattern, name: string): string {
    match p
    case CatchAll => ":" + name + "*"
    case Plain => ":" + name
  }

  /** Length of the longest prefix of identifier characters (what the greedy `*` takes). */
  function IdentSpan(s: string): (n: nat)
    ensures n <= |s|
    ensures forall i :: 0 <= i < n ==> IsIdentChar(s[i])
    ensures n < |s| ==> !IsIdentChar(s[n])
  {
    if s != [] && IsIdentChar(s[0]) then 1 + IdentSpan(s[1..]) else 0
  }

  /** `s` starts with an identifier immediately followed by `}`. */
  predicate ClosedIdentifier(s: string) {
    |s| > 0 && IsIdentStart(s[0]) && IdentSpan(s) < |s| && s[IdentSpan(s)] == '}'
  }

  /** A match: the captured identifier and the number of characters consumed. */
  datatype Found = Found(name: string, length: nat)

  /**
   * The match of pattern `p` anchored at the start of `s`. The character after the
   * identifier can never be an identifier character, so backtracking the greedy
   * `*` cannot produce another match: the match is unique.
   */
  function Match(p: Pattern, s: string): (m: Option<Found>)
    ensures m.Some? ==>
              && IsIdentifier(m.value.name)
              && m.value.length == |Opener(p)| + |m.value.name| + 1 <= |s|
              && HasOpener(p, s)
              && s[|Opener(p)|..m.value.length - 1] == m.value.name
              && s[m.value.length - 1] == '}'
  {
    var k := |Opener(p)|;
    if HasOpener(p, s) && ClosedIdentifier(s[k..]) then
      var t := s[k..];
      var n := IdentSpan(t);
      assert n >= 1 by {
        assert IsIdentChar(t[0]);
      }
      assert s[k..k + n] == t[..n];
      assert IsIdentifier(t[..n]);
      Some(Found(s[k..k + n], k + n + 1))
    else
      None
  }

  /** No position of `s` starts a match of `p`. */
  predicate NoMatchAnywhere(p: Pattern, s: string) {
    forall i :: 0 <= i < |s| ==> Match(p, s[i..]).None?
  }

  /** `s.replace(regex_p, replacement_p)` with the global flag. */
  function ReplaceAll(p: Pattern, s: string): (r: string)
    ensures |r| <= |s|
    decreases |s|
  {
    if s == [] then []
    else
      match Match(p, s)
      case Some(f) => Replacement(p, f.name) + ReplaceAll(p, s[f.length..])
      case None => [s[0]] + ReplaceAll(p, s[1..])
  }

  /** `convertOrpcPathToMsw`: the catch-all pass, then the plain pass. */
  function ConvertOrpcPathToMsw(path: string): (r: string)
    ensures |r| <= |path|
  {
    ReplaceAll(Plain, ReplaceAll(CatchAll, path))
  }

  // ---------------------------------------------------------------------------
  // Matching
  // ---------------------------------------------------------------------------

  lemma {:induction false} IdentSpanAfterIdentChars(id: string, rest: string)
    requires forall i :: 0 <= i < |id| ==> IsIdentChar(id[i])
    ensures IdentSpan(id + rest) == |id| + IdentSpan(rest)
  {
    if id != [] {
      var s := id + rest;
      assert s[0] == id[0] && IsIdentChar(s[0]);
      assert s[1..] == id[1..] + rest;
      assert IdentSpan(s) == 1 + IdentSpan(s[1..]);
      IdentSpanAfterIdentChars(id[1..], rest);
    } else {
      assert id + rest == rest;
    }
  }

  /** Every well-formed `{+name}` / `{name}` is matched, capturing exactly `name`. */
  lemma MatchIdentifier(p: Pattern, name: string, rest: string)
    requires IsIdentifier(name)
    ensures Match(p, Opener(p) + (name + ("}" + rest)))
            == Some(Found(name, |Opener(p)| + |name| + 1))
  {
    var tail := name + ("}" + rest);
    var s := Opener(p) + tail;
    var k := |Opener(p)|;
    HasOpenerOf(p, tail);
    assert s[k..] == tail;
    IdentSpanAfterIdentChars(name, "}" + rest);
    assert tail[|name|] == '}' && tail[0] == name[0];
    MatchAtOpener(p, s);
    assert s[k..k + |name|] == tail[..|name|];
  }

  /** The match at an opener followed by an identifier and `}`. */
  lemma MatchAtOpener(p: Pattern, s: string)
    requires HasOpener(p, s) && ClosedIdentifier(s[|Opener(p)|..])
    ensures var k := |Opener(p)|;
            var n := IdentSpan(s[k..]);
            Match(p, s) == Some(Found(s[k..k + n], k + n + 1))
  {
  }

  // ---------------------------------------------------------------------------
  // Text without `{` is copied
  // ---------------------------------------------------------------------------

  /** Text that does not start with the opener of `p` starts no match: its first character is copied. */
  lemma CopyNonOpener(p: Pattern, s: string)
    requires s != [] && !HasOpener(p, s)
    ensures ReplaceAll(p, s) == [s[0]] + ReplaceAll(p, s[1..])
  {
    assert Match(p, s).None?;
  }

  /** A `{`-free prefix is copied unchanged and does not affect what follows. */
  lemma {:induction false} ReplaceAllLiteral(p: Pattern, a: string, b: string)
    requires '{' !in a
    ensures ReplaceAll(p, a + b) == a + ReplaceAll(p, b)
  {
    if a != [] {
      var s := a + b;
      assert s[0] == a[0] && s[1..] == a[1..] + b;
      CopyNonOpener(p, s);
      ReplaceAllLiteral(p, a[1..], b);
      var rb := ReplaceAll(p, b);
      assert [a[0]] + (a[1..] + rb) == a + rb by {
        assert a == [a[0]] + a[1..];
      }
    } else {
      assert a + b == b;
    }
  }

  /** A path containing no `{` is returned unchanged. */
  lemma BraceFreeUnchanged(path: string)
    requires '{' !in path
    ensures ConvertOrpcPathToMsw(path) == path
  {
    ReplaceAllLiteral(CatchAll, path, []);
    assert path + [] == path;
    ReplaceAllLiteral(Plain, path, []);
  }

  // ---------------------------------------------------------------------------
  // Replacement preserves what the patterns look at
  // ---------------------------------------------------------------------------

  /** The first output character is the first input character, or `:` for a match. */
  lemma ReplaceAllHead(p: Pattern, u: string)
    requires u != []
    ensures ReplaceAll(p, u) != []
    ensures ReplaceAll(p, u)[0] == u[0] || (u[0] == '{' && ReplaceAll(p, u)[0] == ':')
  {
  }

  /**
   * Two texts that share a run of identifier characters and then differ only in
   * a first character that is not `}` on either side (`{` against `:`), or not at all.
   */
  lemma ClosedIdentifierSameHead(a: string, u: string, o: string)
    requires forall i :: 0 <= i < |a| ==> IsIdentChar(a[i])
    requires u != [] && o != [] && !IsIdentChar(u[0])
    requires o[0] == u[0] || (u[0] == '{' && o[0] == ':')
    ensures ClosedIdentifier(a + o) <==> ClosedIdentifier(a + u)
  {
    assert !IsIdentChar(o[0]);
    assert IdentSpan(o) == 0 && IdentSpan(u) == 0;
    IdentSpanAfterIdentChars(a, o);
    IdentSpanAfterIdentChars(a, u);
    assert (a + o)[|a|] == o[0] && (a + u)[|a|] == u[0];
    if a == [] {
      assert a + o == o && a + u == u;
    } else {
      assert (a + o)[0] == a[0] == (a + u)[0];
    }
  }

  /** Replacing never creates or destroys an identifier-then-`}` at the front. */
  lemma ClosedIdentifierPreserved(p: Pattern, t: string)
    ensures ClosedIdentifier(ReplaceAll(p, t)) <==> ClosedIdentifier(t)
  {
    var k := IdentSpan(t);
    var a, u := t[..k], t[k..];
    assert t == a + u;
    assert forall i :: 0 <= i < |a| ==> IsIdentChar(a[i]);
    assert ReplaceAll(p, t) == a + ReplaceAll(p, u) by {
      assert '{' !in a by {
        forall i | 0 <= i < k ensures a[i] != '{' {
          assert IsIdentChar(a[i]);
        }
      }
      ReplaceAllLiteral(p, a, u);
    }
    if u == [] {
      assert a + ReplaceAll(p, u) == t;
    } else {
      ReplaceAllHead(p, u);
      ClosedIdentifierSameHead(a, u, ReplaceAll(p, u));
    }
  }

  /** After a pass, `+` followed by text is still `+` followed by that text's image. */
  lemma ReplaceAllAfterPlus(p: Pattern, s: string)
    requires |s| >= 2 && s[1] == '+'
    ensures ReplaceAll(p, s[1..]) == "+" + ReplaceAll(p, s[2..])
  {
    assert s[1..] == "+" + s[2..];
    ReplaceAllLiteral(p, "+", s[2..]);
  }

  /** A copied `{` that did not open a catch-all does not open one after the pass. */
  lemma NoCatchAllAtCopiedHead(p: Pattern, s: string)
    requires s != [] && Match(CatchAll, s).None?
    ensures Match(CatchAll, [s[0]] + ReplaceAll(p, s[1..])).None?
  {
    var o := [s[0]] + ReplaceAll(p, s[1..]);
    assert o[0] == s[0] && o[1..] == ReplaceAll(p, s[1..]);
    if |s| < 2 {
      assert s[1..] == [];
      assert |o| == 1;
    } else if s[1] != '+' {
      ReplaceAllHead(p, s[1..]);
      assert o[1] != '+';
    } else if s[0] == '{' {
      NoCatchAllAfterCopiedOpener(p, s);
    }
  }

  /** `{+` followed by `r` opens a catch-all exactly when `r` starts with a closed identifier. */
  lemma MatchCatchAllOpened(r: string)
    ensures Match(CatchAll, ['{'] + (['+'] + r)).Some? <==> ClosedIdentifier(r)
  {
    var o := ['{'] + (['+'] + r);
    assert HasOpener(CatchAll, o) && o[2..] == r;
  }

  /** The `{+` case: what follows the opener was no closed identifier and does not become one. */
  lemma NoCatchAllAfterCopiedOpener(p: Pattern, s: string)
    requires |s| >= 2 && s[0] == '{' && s[1] == '+' && Match(CatchAll, s).None?
    ensures Match(CatchAll, [s[0]] + ReplaceAll(p, s[1..])).None?
  {
    var r := ReplaceAll(p, s[2..]);
    assert !ClosedIdentifier(s[2..]);
    assert !ClosedIdentifier(r) by {
      ClosedIdentifierPreserved(p, s[2..]);
    }
    assert [s[0]] + ReplaceAll(p, s[1..]) == ['{'] + (['+'] + r) by {
      ReplaceAllAfterPlus(p, s);
    }
    MatchCatchAllOpened(r);
  }

  /** A copied `{` that did not open a plain parameter does not open one after the pass. */
  lemma NoPlainAtCopiedHead(p: Pattern, s: string)
    requires s != [] && Match(Plain, s).None?
    ensures Match(Plain, [s[0]] + ReplaceAll(p, s[1..])).None?
  {
    var o := [s[0]] + ReplaceAll(p, s[1..]);
    assert o[0] == s[0] && o[1..] == ReplaceAll(p, s[1..]);
    if s[0] == '{' {
      assert !ClosedIdentifier(s[1..]);
      ClosedIdentifierPreserved(p, s[1..]);
    }
  }

  /** A character the scanner copies does not become the start of a match. */
  lemma NoMatchAtCopiedHead(q: Pattern, p: Pattern, s: string)
    requires s != [] && Match(q, s).None?
    ensures Match(q, [s[0]] + ReplaceAll(p, s[1..])).None?
  {
    match q
    case CatchAll => NoCatchAllAtCopiedHead(p, s);
    case Plain => NoPlainAtCopiedHead(p, s);
  }

  /** Prepending a character that does not start a match keeps a text match-free. */
  lemma NoMatchAnywhereCons(q: Pattern, c: char, t: string)
    requires NoMatchAnywhere(q, t) && Match(q, [c] + t).None?
    ensures NoMatchAnywhere(q, [c] + t)
  {
    forall i | 0 <= i < |[c] + t| ensures Match(q, ([c] + t)[i..]).None? {
      if i > 0 {
        assert ([c] + t)[i..] == t[i - 1..];
      }
    }
  }

  /** Prepending `{`-free text keeps a text match-free. */
  lemma NoMatchAnywhereAfterLiteral(q: Pattern, a: string, t: string)
    requires '{' !in a && NoMatchAnywhere(q, t)
    ensures NoMatchAnywhere(q, a + t)
  {
    forall i | 0 <= i < |a + t| ensures Match(q, (a + t)[i..]).None? {
      if i < |a| {
        assert (a + t)[i..][0] == a[i];
      } else {
        assert (a + t)[i..] == t[i - |a|..];
      }
    }
  }

  lemma NoMatchAnywhereSuffix(q: Pattern, s: string, n: nat)
    requires n <= |s| && NoMatchAnywhere(q, s)
    ensures NoMatchAnywhere(q, s[n..])
  {
    forall i | 0 <= i < |s[n..]| ensures Match(q, s[n..][i..]).None? {
      assert s[n..][i..] == s[n + i..];
    }
  }

  /**
   * After a pass of `p` no position matches `p` any more, and a pattern `q` that
   * matched nowhere before still matches nowhere.
   */
  lemma {:induction false} ReplaceAllLeavesNoMatch(p: Pattern, q: Pattern, s: string)
    ensures NoMatchAnywhere(p, ReplaceAll(p, s))
    ensures NoMatchAnywhere(q, s) ==> NoMatchAnywhere(q, ReplaceAll(p, s))
    decreases |s|
  {
    if s != [] {
      match Match(p, s)
      case Some(f) =>
        var rest := s[f.length..];
        var r := Replacement(p, f.name);
        assert '{' !in r by {
          assert forall i :: 0 <= i < |f.name| ==> IsIdentChar(f.name[i]);
        }
        ReplaceAllLeavesNoMatch(p, q, rest);
        NoMatchAnywhereAfterLiteral(p, r, ReplaceAll(p, rest));
        if NoMatchAnywhere(q, s) {
          NoMatchAnywhereSuffix(q, s, f.length);
          NoMatchAnywhereAfterLiteral(q, r, ReplaceAll(p, rest));
        }
      case None =>
        ReplaceAllLeavesNoMatch(p, q, s[1..]);
        NoMatchAtCopiedHead(p, p, s);
        NoMatchAnywhereCons(p, s[0], ReplaceAll(p, s[1..]));
        if NoMatchAnywhere(q, s) {
          NoMatchAnywhereSuffix(q, s, 1);
          assert s[0..] == s;
          NoMatchAtCopiedHead(q, p, s);
          NoMatchAnywhereCons(q, s[0], ReplaceAll(p, s[1..]));
        }
    }
  }

  /**
   * The translated path contains no well-formed `{+name}` and no well-formed
   * `{name}`: the catch-all pass consumes every catch-all before the plain pass
   * runs, and the plain pass creates no braces.
   */
  lemma ConvertLeavesNoParameterSyntax(path: string)
    ensures NoMatchAnywhere(CatchAll, ConvertOrpcPathToMsw(path))
    ensures NoMatchAnywhere(Plain, ConvertOrpcPathToMsw(path))
  {
    var mid := ReplaceAll(CatchAll, path);
    ReplaceAllLeavesNoMatch(CatchAll, Plain, path);
    ReplaceAllLeavesNoMatch(Plain, CatchAll, mid);
  }

  // ---------------------------------------------------------------------------
  // Exactly the text without parameters is left unchanged
  // ---------------------------------------------------------------------------

  /** Every replacement is one character shorter than its match, so a pass that keeps the length matched nothing. */
  lemma {:induction false} ReplaceAllSameLength(p: Pattern, s: string)
    requires |ReplaceAll(p, s)| == |s|
    ensures NoMatchAnywhere(p, s)
    decreases |s|
  {
    if s != [] {
      match Match(p, s)
      case Some(f) =>
        assert false;
      case None =>
        ReplaceAllSameLength(p, s[1..]);
        assert [s[0]] + s[1..] == s;
        NoMatchAnywhereCons(p, s[0], s[1..]);
    }
  }

  lemma {:induction false} ReplaceAllWithoutMatch(p: Pattern, s: string)
    requires NoMatchAnywhere(p, s)
    ensures ReplaceAll(p, s) == s
    decreases |s|
  {
    if s != [] {
      assert Match(p, s[0..]).None?;
      assert s[0..] == s;
      NoMatchAnywhereSuffix(p, s, 1);
      ReplaceAllWithoutMatch(p, s[1..]);
    }
  }

  /** A pass changes its input if and only if the pattern occurs in it. */
  lemma ReplaceAllIdentityIff(p: Pattern, s: string)
    ensures ReplaceAll(p, s) == s <==> NoMatchAnywhere(p, s)
  {
    if ReplaceAll(p, s) == s {
      ReplaceAllSameLength(p, s);
    }
    if NoMatchAnywhere(p, s) {
      ReplaceAllWithoutMatch(p, s);
    }
  }

  /**
   * The translator returns its input unchanged exactly when the input holds no
   * well-formed `{+name}` and no well-formed `{name}`: malformed brace forms such as
   * `{}`, `{1a}` or `{a-b}` are copied verbatim.
   */
  lemma ConvertIdentityIff(path: string)
    ensures ConvertOrpcPathToMsw(path) == path
            <==> NoMatchAnywhere(CatchAll, path) && NoMatchAnywhere(Plain, path)
  {
    var mid := ReplaceAll(CatchAll, path);
    if ConvertOrpcPathToMsw(path) == path {
      assert |mid| == |path|;
      ReplaceAllSameLength(CatchAll, path);
      ReplaceAllWithoutMatch(CatchAll, path);
      ReplaceAllSameLength(Plain, path);
    }
    if NoMatchAnywhere(CatchAll, path) && NoMatchAnywhere(Plain, path) {
      ReplaceAllWithoutMatch(CatchAll, path);
      ReplaceAllWithoutMatch(Plain, path);
    }
  }

  // ---------------------------------------------------------------------------
  // Reference: templates built from segments
  // ---------------------------------------------------------------------------

  /** One piece of a route template. */
  datatype Segment =
    | Static(text: string)        // copied verbatim
    | Param(name: string)         // `{name}` in oRPC, `:name` in the runtime
    | CatchAllParam(name: string) // `{+name}` in oRPC, `:name*` in the runtime

  predicate WellFormedSegment(seg: Segment) {
    match seg
    case Static(text) => '{' !in text
    case Param(name) => IsIdentifier(name)
    case CatchAllParam(name) => IsIdentifier(name)
  }

  function OrpcSegment(seg: Segment): string {
    match seg
    case Static(text) => text
    case Param(name) => "{" + name + "}"
    case CatchAllParam(name) => "{+" + name + "}"
  }

  function MswSegment(seg: Segment): string {
    match seg
    case Static(text) => text
    case Param(name) => ":" + name
    case CatchAllParam(name) => ":" + name + "*"
  }

  /** The template in oRPC syntax. */
  function OrpcTemplate(segs: seq<Segment>): string {
    if segs == [] then [] else OrpcSegment(segs[0]) + OrpcTemplate(segs[1..])
  }

  /** The same template in the interception runtime's syntax. */
  function MswTemplate(segs: seq<Segment>): string {
    if segs == [] then [] else MswSegment(segs[0]) + MswTemplate(segs[1..])
  }

  /** A pass replaces a well-formed occurrence of its own pattern and continues after it. */
  lemma ReplaceAllAtMatch(p: Pattern, name: string, rest: string)
    requires IsIdentifier(name)
    ensures ReplaceAll(p, Opener(p) + name + "}" + rest) == Replacement(p, name) + ReplaceAll(p, rest)
  {
    var s := Opener(p) + (name + ("}" + rest));
    var n := |Opener(p)| + |name| + 1;
    assert Opener(p) + name + "}" + rest == s;
    MatchIdentifier(p, name, rest);
    assert s[n..] == rest;
  }

  /** Static text without `{` is kept by the translator. */
  lemma ConvertStaticText(text: string, rest: string)
    requires '{' !in text
    ensures ConvertOrpcPathToMsw(text + rest) == text + ConvertOrpcPathToMsw(rest)
  {
    ReplaceAllLiteral(CatchAll, text, rest);
    ReplaceAllLiteral(Plain, text, ReplaceAll(CatchAll, rest));
  }

  /** Identifier text and what it is wrapped in carry no `{`. */
  lemma IdentifierBraceFree(name: string, before: string, after: string)
    requires IsIdentifier(name) && '{' !in before && '{' !in after
    ensures '{' !in before + name + after
  {
    assert forall i :: 0 <= i < |name| ==> IsIdentChar(name[i]);
  }

  /** The catch-all pass copies a plain `{name}`: its `{` is not followed by `+`. */
  lemma CatchAllPassKeepsPlainParam(name: string, rest: string)
    requires IsIdentifier(name)
    ensures ReplaceAll(CatchAll, "{" + (name + ("}" + rest))) == "{" + (name + ("}" + ReplaceAll(CatchAll, rest)))
  {
    var t := name + "}";
    var s := "{" + (t + rest);
    assert s == "{" + (name + ("}" + rest));
    assert s[1] == name[0] != '+';
    assert '{' !in t by {
      IdentifierBraceFree(name, [], "}");
      assert [] + name + "}" == t;
    }
    CopyThenLiteral(CatchAll, s, t, rest);
    BracedConcat(name, ReplaceAll(CatchAll, rest));
  }

  lemma BracedConcat(name: string, r: string)
    ensures ['{'] + ((name + "}") + r) == "{" + (name + ("}" + r))
  {
  }

  /** A first character that opens nothing, then `{`-free text, are copied as they are. */
  lemma CopyThenLiteral(p: Pattern, s: string, t: string, rest: string)
    requires s != [] && s[1..] == t + rest && !HasOpener(p, s) && '{' !in t
    ensures ReplaceAll(p, s) == [s[0]] + (t + ReplaceAll(p, rest))
  {
    CopyNonOpener(p, s);
    ReplaceAllLiteral(p, t, rest);
  }

  /** `{name}` becomes `:name`; the catch-all pass leaves it alone. */
  lemma ConvertPlainParam(name: string, rest: string)
    requires IsIdentifier(name)
    ensures ConvertOrpcPathToMsw("{" + name + "}" + rest) == ":" + name + ConvertOrpcPathToMsw(rest)
  {
    var rc := ReplaceAll(CatchAll, rest);
    assert "{" + name + "}" + rest == "{" + (name + ("}" + rest));
    CatchAllPassKeepsPlainParam(name, rest);
    assert "{" + (name + ("}" + rc)) == Opener(Plain) + name + "}" + rc;
    ReplaceAllAtMatch(Plain, name, rc);
  }

  /** `{+name}` becomes `:name*`; the plain pass leaves the result alone. */
  lemma ConvertCatchAllParam(name: string, rest: string)
    requires IsIdentifier(name)
    ensures ConvertOrpcPathToMsw("{+" + name + "}" + rest) == ":" + name + "*" + ConvertOrpcPathToMsw(rest)
  {
    var rc := ReplaceAll(CatchAll, rest);
    ReplaceAllAtMatch(CatchAll, name, rest);
    IdentifierBraceFree(name, ":", "*");
    ReplaceAllLiteral(Plain, ":" + name + "*", rc);
  }

  /** Each segment is translated on its own, whatever follows it. */
  lemma ConvertSegment(seg: Segment, rest: string)
    requires WellFormedSegment(seg)
    ensures ConvertOrpcPathToMsw(OrpcSegment(seg) + rest)
            == MswSegment(seg) + ConvertOrpcPathToMsw(rest)
  {
    match seg
    case Static(text) => ConvertStaticText(text, rest);
    case Param(name) => ConvertPlainParam(name, rest);
    case CatchAllParam(name) => ConvertCatchAllParam(name, rest);
  }

  /**
   * A well-formed template is translated segment by segment: every `{+name}`
   * becomes `:name*`, every `{name}` becomes `:name`, static text is kept.
   */
  lemma {:induction false} ConvertTemplate(segs: seq<Segment>)
    requires forall i :: 0 <= i < |segs| ==> WellFormedSegment(segs[i])
    ensures ConvertOrpcPathToMsw(OrpcTemplate(segs)) == MswTemplate(segs)
  {
    if segs == [] {
      assert ConvertOrpcPathToMsw([]) == [];
    } else {
      ConvertSegment(segs[0], OrpcTemplate(segs[1..]));
      ConvertTemplate(segs[1..]);
    }
  }

  /**
   * A `{` that opens neither a well-formed `{+name}` nor a well-formed `{name}` is
   * copied, and translation carries on with the next character.
   */
  lemma ConvertKeepsStrayBrace(rest: string)
    requires !ClosedIdentifier(rest)
    requires rest != [] && rest[0] == '+' ==> !ClosedIdentifier(rest[1..])
    ensures ConvertOrpcPathToMsw("{" + rest) == "{" + ConvertOrpcPathToMsw(rest)
  {
    var s := "{" + rest;
    assert s[1..] == rest;
    assert Match(CatchAll, s).None? by {
      if |s| >= 2 && s[..2] == "{+" {
        assert s[2..] == rest[1..];
      }
    }
    var rc := ReplaceAll(CatchAll, rest);
    assert ReplaceAll(CatchAll, s) == "{" + rc;
    ClosedIdentifierPreserved(CatchAll, rest);
    var t := "{" + rc;
    assert t[1..] == rc;
    assert Match(Plain, t).None?;
    assert ReplaceAll(Plain, t) == "{" + ReplaceAll(Plain, rc);
  }

  /** The template `/a/{id}/b/{+rest}` as segments. */
  function ExampleSegments(): seq<Segment> {
    [Static("/a/"), Param("id"), Static("/b/"), CatchAllParam("rest")]
  }

  lemma ExampleOrpcTemplate()
    ensures OrpcTemplate(ExampleSegments()) == "/a/{id}/b/{+rest}"
  {
    var s0 := ExampleSegments();
    assert s0[1..][1..][1..] == [CatchAllParam("rest")];
    assert OrpcTemplate(s0[1..][1..][1..]) == "{+rest}" by {
      assert [CatchAllParam("rest")][1..] == [];
    }
    assert OrpcTemplate(s0[1..][1..]) == "/b/{+rest}";
    assert OrpcTemplate(s0[1..]) == "{id}/b/{+rest}";
  }

  lemma ExampleMswTemplate()
    ensures MswTemplate(ExampleSegments()) == "/a/:id/b/:rest*"
  {
    var s0 := ExampleSegments();
    assert s0[1..][1..][1..] == [CatchAllParam("rest")];
    assert MswTemplate(s0[1..][1..][1..]) == ":rest*" by {
      assert [CatchAllParam("rest")][1..] == [];
    }
    assert MswTemplate(s0[1..][1..]) == "/b/:rest*";
    assert MswTemplate(s0[1..]) == ":id/b/:rest*";
  }

  /** The route of a parameterised procedure. */
  lemma ConvertExample()
    ensures ConvertOrpcPathToMsw("/a/{id}/b/{+rest}") == "/a/:id/b/:rest*"
  {
    ExampleOrpcTemplate();
    ExampleMswTemplate();
    ConvertTemplate(ExampleSegments());
  }

  /** Malformed parameter syntax is kept as written. */
  lemma ConvertMalformedExample()
    ensures ConvertOrpcPathToMsw("{}/{1a}/{a-b}/{+}") == "{}/{1a}/{a-b}/{+}"
  {
    var e: string := [];
    var a := "+}" + e;
    var b := "{" + a;
    var c := "a-b}/" + b;
    var d := "{" + c;
    var f := "1a}/" + d;
    var g := "{" + f;
    var h := "}/" + g;
    var k := "{" + h;
    assert k == "{}/{1a}/{a-b}/{+}";
    assert ConvertOrpcPathToMsw(e) == e;
    assert ConvertOrpcPathToMsw(a) == a by { ConvertStaticText("+}", e); }
    assert ConvertOrpcPathToMsw(b) == b by { ConvertKeepsStrayBrace(a); }
    assert ConvertOrpcPathToMsw(c) == c by { ConvertStaticText("a-b}/", b); }
    assert ConvertOrpcPathToMsw(d) == d by {
      assert c[1..][0] == '-' && !IsIdentChar('-');
      assert IdentSpan(c) == 1;
      ConvertKeepsStrayBrace(c);
    }
    assert ConvertOrpcPathToMsw(f) == f by { ConvertStaticText("1a}/", d); }
    assert ConvertOrpcPathToMsw(g) == g by { ConvertKeepsStrayBrace(f); }
    assert ConvertOrpcPathToMsw(h) == h by { ConvertStaticText("}/", g); }
    assert ConvertOrpcPathToMsw(k) == k by { ConvertKeepsStrayBrace(h); }
  }
}
