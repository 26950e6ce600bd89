/** NMDC message escaping. Five replacement passes escape, three undo them. */
module NmdcEscape {
  const AMP := "&amp;"
  const DOLLAR := "&#36;"
  const PIPE := "&#124;"

  // ----- one replacement pass -----

  /** Every occurrence of pat, from left to right, replaced by rep. */
  function ReplaceAll(s: string, pat: string, rep: string): string
    requires pat != ""
    decreases |s|
  {
    if s == "" then ""
    else if pat <= s then rep + ReplaceAll(s[|pat|..], pat, rep)
    else [s[0]] + ReplaceAll(s[1..], pat, rep)
  }

  lemma {:induction false} SkipPlain(w: string, t: string, pat: string, rep: string)
    requires pat != "" && pat[0] !in w
    ensures ReplaceAll(w + t, pat, rep) == w + ReplaceAll(t, pat, rep)
    decreases |w|
  {
    if w == "" {
      assert w + t == t;
    } else {
      assert (w + t)[1..] == w[1..] + t;
      SkipPlain(w[1..], t, pat, rep);
    }
  }

  /** string::find from a position. */
  method Find(s: string, pat: string, from: nat) returns (i: nat, found: bool)
    requires from <= |s| && pat != ""
    ensures if found then from <= i <= |s| && pat <= s[i..] else i == |s|
    ensures forall k :: from <= k < (if found then i else |s|) ==> !(pat <= s[k..])
  {
    i := from;
    while i < |s|
      invariant from <= i <= |s|
      invariant forall k :: from <= k < i ==> !(pat <= s[k..])
    {
      if pat <= s[i..] {
        return i, true;
      }
      i := i + 1;
    }
    return i, false;
  }

  /** Up to the first occurrence a pass copies. */
  lemma {:induction false} CopyUpTo(s: string, j: nat, pat: string, rep: string)
    requires pat != "" && j <= |s| && forall k :: 0 <= k < j ==> !(pat <= s[k..])
    ensures ReplaceAll(s, pat, rep) == s[..j] + ReplaceAll(s[j..], pat, rep)
    decreases j
  {
    if j > 0 {
      assert s[0..] == s;
      var t := s[1..];
      forall k | 0 <= k < j - 1 ensures !(pat <= t[k..]) {
        assert t[k..] == s[k + 1..];
      }
      CopyUpTo(t, j - 1, pat, rep);
      assert t[j - 1..] == s[j..] && [s[0]] + t[..j - 1] == s[..j];
    }
  }

  /** The replacement loop of the source: overwrite cut characters of each occurrence, and go on
      searching a little further, inside the text just written. Nothing there starts an occurrence. */
  method ReplacePass(s: string, pat: string, cut: nat, insert: string, advance: nat) returns (tmp: string)
    requires pat != "" && cut <= |pat| && advance <= |insert|
    requires pat[0] !in (insert + pat[cut..])[advance..]
    ensures tmp == ReplaceAll(s, pat, insert + pat[cut..])
  {
    ghost var rep := insert + pat[cut..];
    tmp := s;
    var i: nat := 0;
    ghost var head, left := "", s;
    while true
      invariant tmp == head + left && i <= |head| && pat[0] !in head[i..]
      invariant head + ReplaceAll(left, pat, rep) == ReplaceAll(s, pat, rep)
      decreases |left|
    {
      var j, found := Find(tmp, pat, i);
      if !found {
        NothingLeft(head, left, i, pat, rep);
        return;
      }
      ghost var m := NextOccurrence(head, left, i, j, pat, cut, insert, advance);
      tmp := tmp[..j] + insert + tmp[j + cut..];
      i := j + advance;
      head, left := head + left[..m] + rep, left[m + |pat|..];
    }
  }

  lemma NothingLeft(head: string, left: string, i: nat, pat: string, rep: string)
    requires pat != "" && i <= |head| && pat[0] !in head[i..]
    requires var tmp := head + left; forall k :: i <= k < |tmp| ==> !(pat <= tmp[k..])
    ensures ReplaceAll(left, pat, rep) == left
  {
    SearchInLeft(head, left, i, |head| + |left|, false, pat);
    CopyUpTo(left, |left|, pat, rep);
    assert left[|left|..] == "" && left[..|left|] == left;
  }

  /** The loop's step: m is where the occurrence lies in the text not looked at yet. */
  lemma NextOccurrence(head: string, left: string, i: nat, j: nat, pat: string, cut: nat, insert: string, advance: nat)
    returns (m: nat)
    requires pat != "" && cut <= |pat| && advance <= |insert| && pat[0] !in (insert + pat[cut..])[advance..]
    requires i <= |head| && pat[0] !in head[i..]
    requires var tmp := head + left;
             i <= j <= |tmp| && pat <= tmp[j..] && forall k :: i <= k < j ==> !(pat <= tmp[k..])
    ensures m + |pat| <= |left| && j == |head| + m
    ensures var rep := insert + pat[cut..];
            var tmp, head', left' := head + left, head + left[..m] + rep, left[m + |pat|..];
            && tmp[..j] + insert + tmp[j + cut..] == head' + left'
            && head + ReplaceAll(left, pat, rep) == head' + ReplaceAll(left', pat, rep)
            && j + advance <= |head'| && pat[0] !in head'[j + advance..]
  {
    var rep := insert + pat[cut..];
    SearchInLeft(head, left, i, j, true, pat);
    m := j - |head|;
    CopyUpTo(left, m, pat, rep);
    Overwrite(head, left, m, pat, cut, insert);
    StepOver(head, left, m, pat, rep);
    assert (head + left[..m] + rep)[j + advance..] == rep[advance..];
  }

  /** What one replacement does to the text. */
  lemma Overwrite(head: string, left: string, m: nat, pat: string, cut: nat, insert: string)
    requires m <= |left| && pat <= left[m..] && cut <= |pat|
    ensures var tmp, j := head + left, |head| + m;
            tmp[..j] + insert + tmp[j + cut..] == head + left[..m] + (insert + pat[cut..]) + left[m + |pat|..]
  {
    assert left == left[..m] + pat + left[m + |pat|..];
  }

  lemma StepOver(head: string, left: string, m: nat, pat: string, rep: string)
    requires pat != "" && m <= |left| && pat <= left[m..]
    ensures head + (left[..m] + ReplaceAll(left[m..], pat, rep))
         == head + left[..m] + rep + ReplaceAll(left[m + |pat|..], pat, rep)
  {
    ReplaceHit(left[m..], pat, rep);
    assert left[m..][|pat|..] == left[m + |pat|..];
    Regroup(head, left[..m], rep, ReplaceAll(left[m + |pat|..], pat, rep));
  }

  lemma ReplaceHit(s: string, pat: string, rep: string)
    requires pat != "" && pat <= s
    ensures ReplaceAll(s, pat, rep) == rep + ReplaceAll(s[|pat|..], pat, rep)
  {
  }

  lemma Regroup(a: string, b: string, c: string, d: string)
    ensures a + (b + (c + d)) == a + b + c + d
  {
  }

  /** Where a search goes on, it can only find something in the text not looked at yet. */
  lemma SearchInLeft(head: string, left: string, i: nat, j: nat, found: bool, pat: string)
    requires pat != "" && i <= |head| && pat[0] !in head[i..]
    requires var tmp := head + left;
             && (if found then i <= j <= |tmp| && pat <= tmp[j..] else j == |tmp|)
             && forall k :: i <= k < j ==> !(pat <= tmp[k..])
    ensures |head| <= j <= |head| + |left| && (found ==> pat <= left[j - |head|..])
    ensures forall k :: 0 <= k < j - |head| ==> !(pat <= left[k..])
  {
    var tmp := head + left;
    forall k | i <= k < |head| ensures tmp[k] != pat[0] {
      assert tmp[k] == head[i..][k - i];
    }
    if found { assert tmp[j..][0] == pat[0]; }
    forall k | 0 <= k <= |left| ensures tmp[|head| + k..] == left[k..] {
    }
  }

  /** validateMessage in both directions. */
  method ValidateMessage(s: string, reverse: bool) returns (tmp: string)
    ensures tmp == if reverse then Unescape(s) else Escape(s)
  {
    tmp := s;
    if reverse {
      tmp := ReplacePass(tmp, DOLLAR, 5, "$", 1);
      tmp := ReplacePass(tmp, PIPE, 6, "|", 1);
      tmp := ReplacePass(tmp, AMP, 5, "&", 1);
      assert "$" + DOLLAR[5..] == "$" && "|" + PIPE[6..] == "|" && "&" + AMP[5..] == "&";
    } else {
      tmp := ReplacePass(tmp, AMP, 1, AMP, 4);
      tmp := ReplacePass(tmp, DOLLAR, 1, AMP, 4);
      tmp := ReplacePass(tmp, PIPE, 1, AMP, 4);
      tmp := ReplacePass(tmp, "$", 1, DOLLAR, 4);
      tmp := ReplacePass(tmp, "|", 1, PIPE, 5);
      assert DOLLAR + "$"[1..] == DOLLAR && PIPE + "|"[1..] == PIPE;
    }
  }

  function Escape(s: string): string {
    var s1 := ReplaceAll(s, AMP, AMP + AMP[1..]);
    var s2 := ReplaceAll(s1, DOLLAR, AMP + DOLLAR[1..]);
    var s3 := ReplaceAll(s2, PIPE, AMP + PIPE[1..]);
    var s4 := ReplaceAll(s3, "$", DOLLAR);
    ReplaceAll(s4, "|", PIPE)
  }

  function Unescape(s: string): string {
    var s1 := ReplaceAll(s, DOLLAR, "$");
    var s2 := ReplaceAll(s1, PIPE, "|");
    ReplaceAll(s2, AMP, "&")
  }

  // ----- one pass over the source that does all of it -----

  /** The text s starts with one of these entities. */
  predicate Marked(s: string, es: set<string>) {
    exists e :: e in es && e <= s
  }

  function Code(c: char): string {
    if c == '$' then DOLLAR else PIPE
  }

  /** Escapes the ampersand of the entities es and the characters ds. */
  function Encode(s: string, es: set<string>, ds: set<char>): string {
    if s == "" then ""
    else if s[0] in ds then Code(s[0]) + Encode(s[1..], es, ds)
    else if Marked(s, es) then AMP + Encode(s[1..], es, ds)
    else [s[0]] + Encode(s[1..], es, ds)
  }

  const ENTITIES: set<string> := {AMP, DOLLAR, PIPE}

  predicate Allowed(es: set<string>, ds: set<char>) {
    es <= ENTITIES && ds <= {'$', '|'}
  }

  /** No ampersand and no character to be coded. */
  predicate Plain(w: string) {
    '&' !in w && '$' !in w && '|' !in w
  }

  /** Plain text stands in the encoding where it stands in the source. */
  lemma {:induction false} PlainPrefix(w: string, t: string, es: set<string>, ds: set<char>)
    requires Plain(w) && Allowed(es, ds)
    ensures w <= Encode(t, es, ds) <==> w <= t
    ensures w <= t ==> Encode(t, es, ds) == w + Encode(t[|w|..], es, ds)
    decreases |w|
  {
    if w != "" && t != "" {
      EncodeHead(t, es, ds);
      if t[0] !in ds && !Marked(t, es) {
        PlainPrefix(w[1..], t[1..], es, ds);
        ConsPrefix(w, t[0], Encode(t[1..], es, ds));
        ConsPrefix(w, t[0], t[1..]);
        if w <= t {
          assert t[1..][|w| - 1..] == t[|w|..];
          assert w == [t[0]] + w[1..];
        }
      }
    }
  }

  /** What the encoding of a text starts with. */
  lemma EncodeHead(t: string, es: set<string>, ds: set<char>)
    requires t != "" && Allowed(es, ds)
    ensures t[0] in ds || Marked(t, es) ==>
              t[0] in {'&', '$', '|'} && Encode(t, es, ds) != "" && Encode(t, es, ds)[0] == '&'
    ensures t[0] !in ds && !Marked(t, es) ==> Encode(t, es, ds) == [t[0]] + Encode(t[1..], es, ds)
  {
  }

  lemma ConsPrefix(w: string, c: char, t: string)
    requires w != ""
    ensures w <= [c] + t <==> w[0] == c && w[1..] <= t
  {
    assert w == [w[0]] + w[1..];
    if w <= [c] + t {
      assert ([c] + t)[1..|w|] == w[1..];
    }
  }

  lemma EntityShape(e: string)
    requires e in ENTITIES
    ensures |e| >= 5 && e[0] == '&' && Plain(e[1..])
  {
  }

  /** An entity stands in the encoding where it stands in the source unescaped. */
  lemma EntityPrefix(e: string, t: string, es: set<string>, ds: set<char>)
    requires e != "" && Plain(e[1..]) && Allowed(es, ds) && t != "" && t[0] !in ds && !Marked(t, es)
    ensures e <= Encode(t, es, ds) <==> e <= t
    ensures e <= t ==> Encode(t, es, ds) == e + Encode(t[|e|..], es, ds)
  {
    var rest := Encode(t[1..], es, ds);
    EncodeHead(t, es, ds);
    PlainPrefix(e[1..], t[1..], es, ds);
    ConsPrefix(e, t[0], rest);
    ConsPrefix(e, t[0], t[1..]);
    assert t == [t[0]] + t[1..];
    if e <= t {
      BehindPrefix(e, t, rest, Encode(t[|e|..], es, ds));
    }
  }

  lemma BehindPrefix(e: string, t: string, rest: string, last: string)
    requires e != "" && e <= t && (e[1..] <= t[1..] && t[1..][|e| - 1..] == t[|e|..] ==> rest == e[1..] + last)
    ensures [t[0]] + rest == e + last
  {
    assert t[1..][..|e| - 1] == e[1..] && t[1..][|e| - 1..] == t[|e|..];
    Regroup3([t[0]], e[1..], last);
    assert e == [t[0]] + e[1..];
  }

  lemma EntitiesDiffer(e: string, f: string)
    requires e in ENTITIES && f in ENTITIES && e != f
    ensures e[1] != f[1] || e[2] != f[2]
  {
  }

  /** A pass over an entity copies it, unless it looks for this one. */
  lemma CopyEntity(e: string, t: string, pat: string, rep: string)
    requires e in ENTITIES && pat in ENTITIES + {"$", "|"} && pat != e
    ensures ReplaceAll(e + t, pat, rep) == e + ReplaceAll(t, pat, rep)
  {
    EntityShape(e);
    if pat in ENTITIES {
      EntityShape(pat);
      EntitiesDiffer(e, pat);
      CopyOther(e, t, pat, rep);
    } else {
      NoDelimiter(e);
      SkipPlain(e, t, pat, rep);
    }
  }

  lemma NoDelimiter(e: string)
    requires e in ENTITIES
    ensures '$' !in e && '|' !in e
  {
  }

  /** The two differ within their first three characters, and the rest has no '&'. */
  lemma CopyOther(e: string, t: string, pat: string, rep: string)
    requires |e| >= 5 && |pat| >= 5 && e[0] == '&' && pat[0] == '&' && Plain(e[1..])
             && (e[1] != pat[1] || e[2] != pat[2])
    ensures ReplaceAll(e + t, pat, rep) == e + ReplaceAll(t, pat, rep)
  {
    assert (e + t)[0] == e[0] && (e + t)[1] == e[1] && (e + t)[2] == e[2];
    assert !(pat <= e + t);
    assert (e + t)[1..] == e[1..] + t;
    SkipPlain(e[1..], t, pat, rep);
    assert e == [e[0]] + e[1..];
  }

  lemma MarkedMore(s: string, es: set<string>, e: string)
    ensures Marked(s, es + {e}) <==> Marked(s, es) || e <= s
  {
    if Marked(s, es) {
      var m :| m in es && m <= s;
      assert m in es + {e};
    }
    if e <= s {
      assert e in es + {e};
    }
  }

  /** The pass for one more entity. */
  lemma {:induction false} MarkStep(s: string, es: set<string>, e: string)
    requires e in ENTITIES && e !in es && es <= ENTITIES && (e == AMP ==> es == {})
    ensures ReplaceAll(Encode(s, es, {}), e, AMP + e[1..]) == Encode(s, es + {e}, {})
    decreases |s|
  {
    if s != "" {
      EntityShape(e);
      if Marked(s, es) {
        PassedMark(s, es, e, AMP + e[1..]);
        MarkStep(s[1..], es, e);
      } else if e <= s {
        PassedEntity(s, es, e, AMP + e[1..]);
        MarkedEntity(s, es + {e}, e);
        MarkStep(s[|e|..], es, e);
        Regroup3(AMP, e[1..], Encode(s[|e|..], es + {e}, {}));
      } else {
        PassedPlain(s, es, e, AMP + e[1..]);
        MarkStep(s[1..], es, e);
      }
    }
  }

  lemma Regroup3(a: string, b: string, c: string)
    ensures a + (b + c) == a + b + c
  {
  }

  /** An entity escaped earlier, under the pass for another one. */
  lemma PassedMark(s: string, es: set<string>, e: string, rep: string)
    requires s != "" && e in ENTITIES && es <= ENTITIES && e != AMP && Marked(s, es)
    ensures ReplaceAll(Encode(s, es, {}), e, rep) == AMP + ReplaceAll(Encode(s[1..], es, {}), e, rep)
    ensures Encode(s, es + {e}, {}) == AMP + Encode(s[1..], es + {e}, {})
  {
    MarkedMore(s, es, e);
    CopyEntity(AMP, Encode(s[1..], es, {}), e, rep);
  }

  /** Any other character under the pass. */
  lemma PassedPlain(s: string, es: set<string>, e: string, rep: string)
    requires s != "" && e != "" && Plain(e[1..]) && es <= ENTITIES && !Marked(s, es) && !(e <= s)
    ensures ReplaceAll(Encode(s, es, {}), e, rep) == [s[0]] + ReplaceAll(Encode(s[1..], es, {}), e, rep)
    ensures Encode(s, es + {e}, {}) == [s[0]] + Encode(s[1..], es + {e}, {})
  {
    MarkedMore(s, es, e);
    EntityPrefix(e, s, es, {});
    var t := Encode(s[1..], es, {});
    assert ([s[0]] + t)[1..] == t;
  }

  /** An occurrence of the new entity under its pass. */
  lemma PassedEntity(s: string, es: set<string>, e: string, rep: string)
    requires e != "" && Plain(e[1..]) && es <= ENTITIES && e <= s && !Marked(s, es)
    ensures ReplaceAll(Encode(s, es, {}), e, rep) == rep + ReplaceAll(Encode(s[|e|..], es, {}), e, rep)
  {
    EntityPrefix(e, s, es, {});
    var tail := Encode(s[|e|..], es, {});
    ReplaceHit(e + tail, e, rep);
    assert (e + tail)[|e|..] == tail;
  }

  /** An occurrence of an entity in the encoding that escapes it. */
  lemma MarkedEntity(s: string, es: set<string>, e: string)
    requires e != "" && Plain(e[1..]) && e in es && es <= ENTITIES && e <= s
    ensures Encode(s, es, {}) == AMP + (e[1..] + Encode(s[|e|..], es, {}))
  {
    assert Marked(s, es);
    PlainPrefix(e[1..], s[1..], es, {});
    assert s[1..][|e| - 1..] == s[|e|..];
  }

  /** The pass for one more character. */
  lemma {:induction false} CodeStep(s: string, ds: set<char>, c: char)
    requires c in {'$', '|'} && c !in ds && ds <= {'$', '|'}
    ensures ReplaceAll(Encode(s, ENTITIES, ds), [c], Code(c)) == Encode(s, ENTITIES, ds + {c})
    decreases |s|
  {
    if s != "" {
      CodeStep(s[1..], ds, c);
      var rest := Encode(s[1..], ENTITIES, ds);
      if s[0] in ds {
        CopyEntity(Code(s[0]), rest, [c], Code(c));
      } else if Marked(s, ENTITIES) {
        assert s[0] == '&';
        CopyEntity(AMP, rest, [c], Code(c));
      } else if s[0] == c {
        assert ([c] + rest)[1..] == rest;
      }
    }
  }

  /** The pass that takes a character back. */
  lemma {:induction false} DecodeStep(s: string, ds: set<char>, c: char)
    requires c in ds && ds <= {'$', '|'}
    ensures ReplaceAll(Encode(s, ENTITIES, ds), Code(c), [c]) == Encode(s, ENTITIES, ds - {c})
    decreases |s|
  {
    if s != "" {
      DecodeStep(s[1..], ds, c);
      var rest := Encode(s[1..], ENTITIES, ds);
      if s[0] == c {
        assert (Code(c) + rest)[|Code(c)|..] == rest;
        assert !Marked(s, ENTITIES);
      } else if s[0] in ds {
        CopyEntity(Code(s[0]), rest, Code(c), [c]);
      } else if Marked(s, ENTITIES) {
        CopyEntity(AMP, rest, Code(c), [c]);
      } else {
        EntityShape(Code(c));
        EntityPrefix(Code(c), s, ENTITIES, ds);
        assert !(Code(c) <= s);
      }
    }
  }

  /** The pass that takes the ampersands back. */
  lemma {:induction false} AmpStep(s: string)
    ensures ReplaceAll(Encode(s, ENTITIES, {}), AMP, "&") == s
    decreases |s|
  {
    if s != "" {
      AmpStep(s[1..]);
      var rest := Encode(s[1..], ENTITIES, {});
      if Marked(s, ENTITIES) {
        assert (AMP + rest)[|AMP|..] == rest;
        assert s == "&" + s[1..];
      } else {
        EntityShape(AMP);
        EntityPrefix(AMP, s, ENTITIES, {});
        assert !(AMP <= s);
      }
    }
  }

  lemma {:induction false} EncodeNothing(s: string)
    ensures Encode(s, {}, {}) == s
  {
    if s != "" {
      EncodeNothing(s[1..]);
    }
  }

  /** The five passes in a row are the single pass. */
  lemma EscapeIsEncode(s: string)
    ensures Escape(s) == Encode(s, ENTITIES, {'$', '|'})
  {
    EncodeNothing(s);
    MarkStep(s, {}, AMP);
    assert {} + {AMP} == {AMP};
    MarkStep(s, {AMP}, DOLLAR);
    assert {AMP} + {DOLLAR} == {AMP, DOLLAR};
    MarkStep(s, {AMP, DOLLAR}, PIPE);
    assert {AMP, DOLLAR} + {PIPE} == ENTITIES;
    CodeStep(s, {}, '$');
    assert {} + {'$'} == {'$'};
    CodeStep(s, {'$'}, '|');
    assert {'$'} + {'|'} == {'$', '|'};
  }

  /** Unescaping undoes escaping, for every string. */
  lemma RoundTrip(s: string)
    ensures Unescape(Escape(s)) == s
  {
    EscapeIsEncode(s);
    DecodeStep(s, {'$', '|'}, '$');
    assert {'$', '|'} - {'$'} == {'|'};
    DecodeStep(s, {'|'}, '|');
    assert {'|'} - {'|'} == {};
    AmpStep(s);
  }

  lemma {:induction false} EncodedClean(s: string)
    ensures var t := Encode(s, ENTITIES, {'$', '|'}); '$' !in t && '|' !in t
  {
    if s != "" {
      EncodedClean(s[1..]);
    }
  }

  /** Character by character: the two delimiters become entities, an ampersand that begins one of the three entities is
      escaped itself, and everything else stays. */
  lemma EscapeOneByOne(s: string)
    requires s != ""
    ensures Escape("") == ""
    ensures Escape(s) == (if s[0] == '$' then "&#36;" else if s[0] == '|' then "&#124;"
                          else if "&amp;" <= s || "&#36;" <= s || "&#124;" <= s then "&amp;"
                          else [s[0]]) + Escape(s[1..])
  {
    EscapeIsEncode(s);
    EscapeIsEncode(s[1..]);
    EscapeIsEncode("");
    assert Marked(s, ENTITIES) <==> AMP <= s || DOLLAR <= s || PIPE <= s;
  }

  /** An escaped string holds neither of the characters that delimit commands. */
  lemma EscapedHasNoDelimiter(s: string)
    ensures '$' !in Escape(s) && '|' !in Escape(s)
  {
    EscapeIsEncode(s);
    EncodedClean(s);
  }
}
