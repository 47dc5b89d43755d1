/** Node ids from headings: the sanitiser, and the generator that keeps them unique. */
module IdGenerator {
  import opened Options
  import opened Text

  // ----- sanitising -----

  predicate IsLower(c: char) {
    'a' <= c <= 'z'
  }

  predicate IsUpper(c: char) {
    'A' <= c <= 'Z'
  }

  predicate IsIdChar(c: char) {
    IsLower(c) || IsDigit(c) || c == '_'
  }

  /** What one character of a heading contributes. */
  function Mapped(c: char): string {
    if IsUpper(c) then [(c as int + 32) as char]
    else if IsLower(c) || IsDigit(c) then [c]
    else if c == ' ' || c == '-' || c == '_' then "_"
    else ""
  }

  function MapAll(text: string): string {
    if text == "" then "" else MapAll(text[..|text| - 1]) + Mapped(text[|text| - 1])
  }

  /** Runs of underscores become one; `prev` says whether one has just been written. */
  function Collapse(s: string, prev: bool): string {
    if s == "" then ""
    else if s[0] == '_' then (if prev then "" else "_") + Collapse(s[1..], true)
    else [s[0]] + Collapse(s[1..], false)
  }

  function TrimStart(s: string): string {
    if s != "" && s[0] == '_' then TrimStart(s[1..]) else s
  }

  function TrimEnd(s: string): string {
    if s != "" && s[|s| - 1] == '_' then TrimEnd(s[..|s| - 1]) else s
  }

  function Trimmed(text: string): string {
    TrimEnd(TrimStart(Collapse(MapAll(text), false)))
  }

  function Sanitize(text: string): string {
    var trimmed := Trimmed(text);
    if trimmed == "" then ""
    else if IsDigit(trimmed[0]) || trimmed[0] == '_' then "n_" + trimmed
    else trimmed
  }

  method SanitizeSegment(text: string) returns (r: string)
    ensures r == Sanitize(text)
  {
    var result := MapCharacters(text);
    var collapsed := CollapseUnderscores(result);
    var trimmed := TrimEnd(TrimStart(collapsed));
    if trimmed == "" {
      return "";
    }
    if IsDigit(trimmed[0]) || trimmed[0] == '_' {
      return "n_" + trimmed;
    }
    return trimmed;
  }

  method MapCharacters(text: string) returns (result: string)
    ensures result == MapAll(text)
  {
    result := "";
    for i := 0 to |text|
      invariant result == MapAll(text[..i])
    {
      assert text[..i + 1][..i] == text[..i];
      var c := text[i];
      if IsUpper(c) {
        result := result + [(c as int + 32) as char];
      } else if IsLower(c) || IsDigit(c) {
        result := result + [c];
      } else if c == ' ' || c == '-' || c == '_' {
        result := result + "_";
      }
    }
    assert text[..|text|] == text;
  }

  lemma CollapseCons(c: char, rest: string, prev: bool)
    ensures Collapse([c] + rest, prev) ==
            (if c != '_' then [c] else if prev then "" else "_") + Collapse(rest, c == '_')
  {
    assert ([c] + rest)[1..] == rest;
  }

  method CollapseUnderscores(s: string) returns (collapsed: string)
    ensures collapsed == Collapse(s, false)
  {
    collapsed := "";
    var prevUnderscore := false;
    for i := 0 to |s|
      invariant Collapse(s, false) == collapsed + Collapse(s[i..], prevUnderscore)
    {
      assert s[i..] == [s[i]] + s[i + 1..];
      CollapseCons(s[i], s[i + 1..], prevUnderscore);
      if s[i] == '_' {
        if !prevUnderscore {
          collapsed := collapsed + "_";
        }
        prevUnderscore := true;
      } else {
        collapsed := collapsed + [s[i]];
        prevUnderscore := false;
      }
    }
  }

  predicate AllIdChars(s: string) {
    forall i :: 0 <= i < |s| ==> IsIdChar(s[i])
  }

  predicate NoDouble(s: string) {
    forall i :: 0 <= i < |s| - 1 ==> !(s[i] == '_' && s[i + 1] == '_')
  }

  /** What the sanitiser promises: a letter, then id characters, with no doubled and no trailing underscore. */
  predicate IsSegment(s: string) {
    s != "" && IsLower(s[0]) && AllIdChars(s) && NoDouble(s) && s[|s| - 1] != '_'
  }

  lemma {:induction false} MapAllIdChars(text: string)
    ensures AllIdChars(MapAll(text))
  {
    if text != "" {
      MapAllIdChars(text[..|text| - 1]);
    }
  }

  lemma {:induction false} CollapseClean(s: string, prev: bool)
    requires AllIdChars(s)
    ensures var r := Collapse(s, prev);
            AllIdChars(r) && NoDouble(r) && (prev && r != "" ==> r[0] != '_')
  {
    if s != "" {
      CollapseClean(s[1..], s[0] == '_');
    }
  }

  lemma {:induction false} TrimStartClean(s: string)
    requires AllIdChars(s) && NoDouble(s)
    ensures var r := TrimStart(s);
            AllIdChars(r) && NoDouble(r) && (r != "" ==> r[0] != '_')
  {
    if s != "" && s[0] == '_' {
      assert forall i :: 0 <= i < |s| - 1 ==> s[1..][i] == s[i + 1];
      TrimStartClean(s[1..]);
    }
  }

  lemma {:induction false} TrimEndClean(s: string)
    requires AllIdChars(s) && NoDouble(s) && (s != "" ==> s[0] != '_')
    ensures var r := TrimEnd(s);
            AllIdChars(r) && NoDouble(r) && (r != "" ==> r[0] != '_' && r[|r| - 1] != '_')
  {
    if s != "" && s[|s| - 1] == '_' {
      TrimEndClean(s[..|s| - 1]);
    }
  }

  /** Every sanitised text is empty or a segment. */
  lemma SanitizeIsSegment(text: string)
    ensures Sanitize(text) == "" || IsSegment(Sanitize(text))
  {
    MapAllIdChars(text);
    CollapseClean(MapAll(text), false);
    TrimStartClean(Collapse(MapAll(text), false));
    TrimEndClean(TrimStart(Collapse(MapAll(text), false)));
    var trimmed := Trimmed(text);
    if trimmed != "" && IsDigit(trimmed[0]) {
      var r := "n_" + trimmed;
      forall i | 0 <= i < |r| - 1 ensures !(r[i] == '_' && r[i + 1] == '_') {
        if i >= 2 { assert r[i] == trimmed[i - 2] && r[i + 1] == trimmed[i - 1]; }
      }
    }
  }

  lemma {:induction false} MapAllFixed(s: string)
    requires AllIdChars(s)
    ensures MapAll(s) == s
  {
    if s != "" {
      MapAllFixed(s[..|s| - 1]);
      assert s == s[..|s| - 1] + [s[|s| - 1]];
    }
  }

  lemma {:induction false} CollapseFixed(s: string, prev: bool)
    requires NoDouble(s) && (prev && s != "" ==> s[0] != '_')
    ensures Collapse(s, prev) == s
  {
    if s != "" {
      assert forall i :: 0 <= i < |s| - 1 ==> s[1..][i] == s[i + 1];
      CollapseFixed(s[1..], s[0] == '_');
      assert s == [s[0]] + s[1..];
    }
  }

  /** Sanitising twice is sanitising once: its results are exactly its fixed points. */
  lemma SanitizeExact(text: string)
    ensures IsSegment(text) ==> Sanitize(text) == text
    ensures Sanitize(Sanitize(text)) == Sanitize(text)
  {
    SanitizeIsSegment(text);
    forall s | IsSegment(s) ensures Sanitize(s) == s {
      MapAllFixed(s);
      CollapseFixed(s, false);
    }
  }

  /** A letter, lower-cased, or a digit; of any other character nothing is left. */
  function CoreChar(c: char): string {
    if 'a' <= c <= 'z' || '0' <= c <= '9' then [c]
    else if 'A' <= c <= 'Z' then ["abcdefghijklmnopqrstuvwxyz"[c as int - 'A' as int]]
    else ""
  }

  predicate Separator(c: char) {
    c == ' ' || c == '-' || c == '_'
  }

  lemma MappedExact(c: char)
    ensures Mapped(c) == if Separator(c) then "_" else CoreChar(c)
    ensures Separator(c) ==> CoreChar(c) == ""
    ensures CoreChar(c) != "" ==> IsIdChar(CoreChar(c)[0]) && CoreChar(c)[0] != '_' && |CoreChar(c)| == 1
    ensures IsIdChar(c) && c != '_' ==> CoreChar(c) == [c]
  {
    if 'A' <= c <= 'Z' { LowerCase(c as int - 'A' as int); }
  }

  lemma LowerCase(i: nat)
    requires i < 26
    ensures "abcdefghijklmnopqrstuvwxyz"[i] == (i + 'a' as int) as char
  {
  }

  /** The letters and digits of a text, lower-cased, in order. */
  function Core(text: string): string {
    if text == "" then "" else CoreChar(text[0]) + Core(text[1..])
  }

  lemma CoreCons(c: char, t: string)
    ensures Core([c] + t) == CoreChar(c) + Core(t)
  {
    assert ([c] + t)[1..] == t;
  }

  lemma Associative(a: string, b: string, c: string)
    ensures a + (b + c) == a + b + c
  {
  }

  lemma {:induction false} CoreConcat(a: string, b: string)
    ensures Core(a + b) == Core(a) + Core(b)
  {
    if a == "" {
      assert a + b == b;
    } else {
      var c, t := a[0], a[1..];
      CoreConcat(t, b);
      Associative([c], t, b);
      assert a == [c] + t;
      CoreCons(c, t + b);
      Associative(CoreChar(c), Core(t), Core(b));
    }
  }

  lemma CoreSingle(c: char)
    ensures Core([c]) == CoreChar(c)
  {
    assert [c][1..] == "" && CoreChar(c) + "" == CoreChar(c);
  }

  lemma CoreOne(c: char)
    ensures Core([c]) == CoreChar(c)
    ensures Core(Mapped(c)) == CoreChar(c)
  {
    CoreSingle(c);
    MappedExact(c);
    if Mapped(c) != "" {
      CoreSingle(Mapped(c)[0]);
      MappedExact(Mapped(c)[0]);
      assert Mapped(c) == [Mapped(c)[0]];
    }
  }

  lemma CoreLast(s: string)
    requires s != ""
    ensures Core(s) == Core(s[..|s| - 1]) + CoreChar(s[|s| - 1])
  {
    var front, c := s[..|s| - 1], s[|s| - 1];
    assert s == front + [c];
    CoreAppend(front, c);
  }

  lemma CoreAppend(front: string, c: char)
    ensures Core(front + [c]) == Core(front) + CoreChar(c)
  {
    CoreConcat(front, [c]);
    CoreOne(c);
  }

  lemma {:induction false} MapAllCore(text: string)
    ensures Core(MapAll(text)) == Core(text)
  {
    if text != "" {
      var front, c := text[..|text| - 1], text[|text| - 1];
      MapAllCore(front);
      CoreConcat(MapAll(front), Mapped(c));
      CoreOne(c);
      CoreLast(text);
    }
  }

  lemma {:induction false} CollapseCore(s: string, prev: bool)
    ensures Core(Collapse(s, prev)) == Core(s)
  {
    if s != "" {
      CollapseCore(s[1..], s[0] == '_');
      var head := if s[0] != '_' then [s[0]] else if prev then "" else "_";
      CoreConcat(head, Collapse(s[1..], s[0] == '_'));
      assert Collapse(s, prev) == head + Collapse(s[1..], s[0] == '_');
      CoreOne(s[0]);
      if s[0] == '_' { CoreOne('_'); }
    }
  }

  lemma {:induction false} TrimStartCore(s: string)
    ensures Core(TrimStart(s)) == Core(s)
  {
    if s != "" && s[0] == '_' {
      TrimStartCore(s[1..]);
      assert CoreChar('_') + Core(s[1..]) == Core(s[1..]);
    }
  }

  lemma {:induction false} TrimEndCore(s: string)
    ensures Core(TrimEnd(s)) == Core(s)
  {
    if s != "" && s[|s| - 1] == '_' {
      TrimEndCore(s[..|s| - 1]);
      CoreLast(s);
      assert Core(s[..|s| - 1]) + "" == Core(s[..|s| - 1]);
    }
  }

  lemma TrimmedCore(text: string)
    ensures Core(Trimmed(text)) == Core(text)
    ensures AllIdChars(Trimmed(text)) && (Trimmed(text) != "" ==> Trimmed(text)[0] != '_')
  {
    var collapsed := Collapse(MapAll(text), false);
    MapAllIdChars(text);
    MapAllCore(text);
    CollapseCore(MapAll(text), false);
    CollapseClean(MapAll(text), false);
    TrimStartClean(collapsed);
    TrimEndClean(TrimStart(collapsed));
    TrimStartCore(collapsed);
    TrimEndCore(TrimStart(collapsed));
  }

  lemma CoreHead(s: string)
    requires s != "" && AllIdChars(s) && s[0] != '_'
    ensures Core(s) != "" && Core(s)[0] == s[0]
    ensures Core("n_" + s) == "n" + Core(s)
  {
    CoreConcat("n_", s);
    CoreConcat("n", "_");
    CoreOne('n');
    CoreOne('_');
    assert "n_" == "n" + "_" && "n" + "" == "n";
  }

  /** The sanitiser keeps the letters and digits of the heading and their order, and puts an
      `n` in front exactly when they start with a digit. */
  lemma SanitizeCore(text: string)
    ensures Core(Sanitize(text)) == (if Core(text) != "" && IsDigit(Core(text)[0]) then "n" else "") + Core(text)
    ensures Sanitize(text) == "" <==> Core(text) == ""
  {
    TrimmedCore(text);
    if Trimmed(text) != "" {
      CoreHead(Trimmed(text));
    }
  }

  // ----- where the underscores are -----

  /** The heading in one pass: `started` says whether something has been written, `pending`
      whether a separator has been passed since. */
  function Spell(text: string, started: bool, pending: bool): string {
    if text == "" then ""
    else if CoreChar(text[0]) != "" then
      (if started && pending then "_" else "") + CoreChar(text[0]) + Spell(text[1..], true, false)
    else Spell(text[1..], started, pending || Separator(text[0]))
  }

  lemma MapAllSnoc(text: string, c: char)
    ensures MapAll(text + [c]) == MapAll(text) + Mapped(c)
  {
    assert (text + [c])[..|text|] == text;
  }

  lemma {:induction false} MapAllCons(c: char, text: string)
    ensures MapAll([c] + text) == Mapped(c) + MapAll(text)
  {
    if text == "" {
      MapAllSnoc("", c);
      assert "" + [c] == [c] + text && "" + Mapped(c) == Mapped(c) + "";
    } else {
      var front, d := text[..|text| - 1], text[|text| - 1];
      assert text == front + [d] && [c] + text == [c] + front + [d];
      MapAllCons(c, front);
      MapAllSnoc([c] + front, d);
      MapAllSnoc(front, d);
      Associative(Mapped(c), MapAll(front), Mapped(d));
    }
  }

  lemma {:induction false} SpellMapped(text: string, started: bool, pending: bool)
    ensures Spell(MapAll(text), started, pending) == Spell(text, started, pending)
  {
    if text != "" {
      var c, rest := text[0], text[1..];
      assert text == [c] + rest;
      MapAllCons(c, rest);
      MappedExact(c);
      SpellMapped(rest, true, false);
      SpellMapped(rest, started, pending || Separator(c));
      if Mapped(c) == "" {
        assert MapAll(text) == MapAll(rest);
      } else {
        assert MapAll(text)[0] == Mapped(c)[0] && MapAll(text)[1..] == MapAll(rest);
        MappedExact(MapAll(text)[0]);
      }
    }
  }

  lemma SpellCons(c: char, t: string, started: bool, pending: bool)
    ensures Spell([c] + t, started, pending) ==
            if CoreChar(c) != "" then (if started && pending then "_" else "") + CoreChar(c) + Spell(t, true, false)
            else Spell(t, started, pending || Separator(c))
  {
    assert ([c] + t)[1..] == t;
  }

  lemma TrimEndKeeps(w: string)
    requires w != "" && w[|w| - 1] != '_'
    ensures TrimEnd(w) == w && TrimEnd(w + "_") == w
  {
    assert (w + "_")[..|w|] == w;
  }

  lemma IdTail(m: string)
    requires AllIdChars(m) && m != ""
    ensures AllIdChars(m[1..]) && IsIdChar(m[0]) && m == [m[0]] + m[1..]
    ensures m[0] == '_' ==> CoreChar(m[0]) == "" && Separator(m[0])
    ensures m[0] != '_' ==> CoreChar(m[0]) == [m[0]]
  {
    MappedExact(m[0]);
  }

  /** `tail` is what is left of collapsed text behind `w`, once the end is trimmed. */
  ghost predicate TrimsTo(w: string, collapsed: string, pending: bool, tail: string) {
    TrimEnd(w + (if pending then "_" else "") + collapsed) == w + tail
  }

  lemma TrimUnder(w: string, rest: string, pending: bool, tail: string)
    requires TrimsTo(w, Collapse(rest, true), true, tail)
    ensures TrimsTo(w, Collapse(['_'] + rest, pending), pending, tail)
  {
    CollapseCons('_', rest, pending);
    var front := if pending then "_" else "";
    assert w + front + Collapse(['_'] + rest, pending) == w + "_" + Collapse(rest, true);
  }

  lemma TrimChar(w: string, c: char, rest: string, pending: bool, tail: string)
    requires c != '_'
    requires TrimsTo(w + (if pending then "_" else "") + [c], Collapse(rest, false), false, tail)
    ensures TrimsTo(w, Collapse([c] + rest, pending), pending, (if pending then "_" else "") + [c] + tail)
  {
    CollapseCons(c, rest, pending);
    var front := if pending then "_" else "";
    assert w + front + Collapse([c] + rest, pending) == w + front + [c] + "" + Collapse(rest, false);
    assert w + front + [c] + tail == w + (front + [c] + tail);
  }

  /** Collapsing and trimming the end, behind text that does not end in an underscore. */
  lemma {:induction false} TrimEndSpell(w: string, m: string, pending: bool)
    requires w != "" && w[|w| - 1] != '_' && AllIdChars(m)
    ensures TrimsTo(w, Collapse(m, pending), pending, Spell(m, true, pending))
    decreases |m|
  {
    if m == "" {
      TrimEndKeeps(w);
      assert w + "_" + "" == w + "_" && w + "" + "" == w;
    } else {
      IdTail(m);
      SpellCons(m[0], m[1..], true, pending);
      if m[0] == '_' {
        TrimEndSpell(w, m[1..], true);
        TrimUnder(w, m[1..], pending, Spell(m[1..], true, true));
      } else {
        TrimEndSpell(w + (if pending then "_" else "") + [m[0]], m[1..], false);
        TrimChar(w, m[0], m[1..], pending, Spell(m[1..], true, false));
      }
    }
  }

  lemma TrimStartUnder(rest: string, pending: bool)
    ensures TrimStart(Collapse(['_'] + rest, pending)) == TrimStart(Collapse(rest, true))
  {
    CollapseCons('_', rest, pending);
    var tail := Collapse(rest, true);
    assert "" + tail == tail && ("_" + tail)[1..] == tail;
  }

  lemma TrimStartChar(c: char, rest: string, pending: bool)
    requires c != '_'
    ensures TrimStart(Collapse([c] + rest, pending)) == [c] + "" + Collapse(rest, false)
  {
    CollapseCons(c, rest, pending);
    assert [c] + "" == [c];
  }

  lemma {:induction false} TrimSpell(m: string, pending: bool)
    requires AllIdChars(m)
    ensures TrimEnd(TrimStart(Collapse(m, pending))) == Spell(m, false, pending)
  {
    if m != "" {
      IdTail(m);
      SpellCons(m[0], m[1..], false, pending);
      if m[0] == '_' {
        TrimStartUnder(m[1..], pending);
        TrimSpell(m[1..], true);
      } else {
        TrimStartChar(m[0], m[1..], pending);
        TrimEndSpell([m[0]], m[1..], false);
      }
    }
  }

  lemma TrimmedSpell(text: string)
    ensures Trimmed(text) == Spell(text, false, false)
  {
    MapAllIdChars(text);
    TrimSpell(MapAll(text), false);
    SpellMapped(text, false, false);
  }

  lemma {:induction false} SpellBehind(a: string, x: char, rest: string, started: bool, pending: bool)
    requires CoreChar(x) != ""
    ensures Spell(a + [x] + rest, started, pending) == Spell(a + [x], started, pending) + Spell(rest, true, false)
  {
    if a == "" {
      SpellCons(x, rest, started, pending);
      SpellCons(x, "", started, pending);
      assert a + [x] + rest == [x] + rest && a + [x] == [x] + "";
    } else {
      var c, t := a[0], a[1..];
      assert a + [x] + rest == [c] + (t + [x] + rest) && a + [x] == [c] + (t + [x]);
      SpellCons(c, t + [x] + rest, started, pending);
      SpellCons(c, t + [x], started, pending);
      if CoreChar(c) != "" {
        SpellBehind(t, x, rest, true, false);
        Associative((if started && pending then "_" else "") + CoreChar(c), Spell(t + [x], true, false),
                    Spell(rest, true, false));
      } else {
        SpellBehind(t, x, rest, started, pending || Separator(c));
      }
    }
  }

  predicate HasSeparator(text: string) {
    ' ' in text || '-' in text || '_' in text
  }

  lemma {:induction false} SpellGap(gap: string, y: char, b: string, started: bool, pending: bool)
    requires Core(gap) == "" && CoreChar(y) != ""
    ensures Spell(gap + [y] + b, started, pending) ==
            (if started && (pending || HasSeparator(gap)) then "_" else "") + CoreChar(y) + Spell(b, true, false)
  {
    if gap == "" {
      SpellCons(y, b, started, pending);
      assert gap + [y] + b == [y] + b;
    } else {
      var c, t := gap[0], gap[1..];
      assert gap == [c] + t;
      assert gap + [y] + b == [c] + (t + [y] + b);
      SpellCons(c, t + [y] + b, started, pending);
      SpellGap(t, y, b, started, pending || Separator(c));
    }
  }

  lemma {:induction false} SpellNone(text: string, started: bool, pending: bool)
    requires Core(text) == ""
    ensures Spell(text, started, pending) == ""
  {
    if text != "" { SpellNone(text[1..], started, pending || Separator(text[0])); }
  }

  /** Without the `n_` that goes in front of a digit. */
  function Unprefixed(x: char, segment: string): string {
    if '0' <= x <= '9' && |segment| >= 2 then segment[2..] else segment
  }

  lemma SpellHead(x: char, b: string)
    requires CoreChar(x) != ""
    ensures Spell([x] + b, false, false) == CoreChar(x) + Spell(b, true, false)
    ensures Unprefixed(x, Sanitize([x] + b)) == Spell([x] + b, false, false)
  {
    TrimmedSpell([x] + b);
    MappedExact(x);
    assert ([x] + b)[1..] == b;
    assert "" + CoreChar(x) == CoreChar(x);
    var t := Trimmed([x] + b);
    assert t[0] == CoreChar(x)[0];
    assert ("n_" + t)[2..] == t;
  }

  lemma SpellFirst(a: string, x: char)
    requires CoreChar(x) != ""
    ensures Spell(a + [x], false, false) != ""
  {
    if Spell(a + [x], false, false) == "" {
      TrimmedSpell(a + [x]);
      TrimmedCore(a + [x]);
      CoreAppend(a, x);
    }
  }

  lemma SpellCut(a: string, x: char, gap: string, y: char, b: string)
    requires CoreChar(x) != "" && CoreChar(y) != "" && Core(gap) == ""
    ensures Spell(a + [x] + gap + [y] + b, false, false) ==
            Spell(a + [x], false, false) + (if HasSeparator(gap) then "_" else "") + Spell([y] + b, false, false)
  {
    var rest, line := gap + [y] + b, if HasSeparator(gap) then "_" else "";
    assert a + [x] + gap + [y] + b == a + [x] + rest;
    SpellBehind(a, x, rest, false, false);
    SpellGap(gap, y, b, true, false);
    SpellHead(y, b);
    Associative(line, CoreChar(y), Spell(b, true, false));
    Associative(Spell(a + [x], false, false), line, Spell([y] + b, false, false));
  }

  lemma SanitizeExtends(text: string, front: string, rest: string)
    requires Trimmed(front) != "" && Trimmed(text) == Trimmed(front) + rest
    ensures Sanitize(text) == Sanitize(front) + rest
  {
    assert Trimmed(text)[0] == Trimmed(front)[0];
    Associative("n_", Trimmed(front), rest);
  }

  /** Between two consecutive letters or digits there is one underscore exactly if the heading
      has a space, a hyphen or an underscore there, and nothing otherwise. */
  lemma GapExact(a: string, x: char, gap: string, y: char, b: string)
    requires CoreChar(x) != "" && CoreChar(y) != "" && Core(gap) == ""
    ensures Sanitize(a + [x] + gap + [y] + b) ==
            Sanitize(a + [x]) + (if HasSeparator(gap) then "_" else "") + Unprefixed(y, Sanitize([y] + b))
  {
    var text, line := a + [x] + gap + [y] + b, if HasSeparator(gap) then "_" else "";
    var rest := Spell([y] + b, false, false);
    SpellCut(a, x, gap, y, b);
    TrimmedSpell(text);
    TrimmedSpell(a + [x]);
    SpellFirst(a, x);
    SpellHead(y, b);
    Associative(Trimmed(a + [x]), line, rest);
    SanitizeExtends(text, a + [x], line + rest);
    Associative(Sanitize(a + [x]), line, rest);
  }

  /** Around the only letter or digit of a heading everything goes. */
  lemma OneCharacter(a: string, x: char, b: string)
    requires CoreChar(x) != "" && Core(a) == "" && Core(b) == ""
    ensures Sanitize(a + [x] + b) == if '0' <= x <= '9' then "n_" + [x] else CoreChar(x)
  {
    TrimmedSpell(a + [x] + b);
    SpellGap(a, x, b, false, false);
    SpellNone(b, true, false);
    MappedExact(x);
    assert "" + CoreChar(x) + "" == CoreChar(x);
  }

  // ----- base ids -----

  function BaseId(prefix: Option<string>, heading: string): string {
    var segment := Sanitize(heading);
    if prefix.Some? && prefix.value != "" then prefix.value + "." + segment else segment
  }

  /** The id asked for: the base, or the fallback of a heading with nothing usable in it. */
  function Requested(prefix: Option<string>, heading: string): string {
    if BaseId(prefix, heading) == "" then "node" else BaseId(prefix, heading)
  }

  /** With a prefix the id is the prefix, the first dot, and the sanitised heading; without one it is
      the sanitised heading, or `node` if nothing is left of it. */
  lemma RequestedExact(prefix: Option<string>, heading: string)
    requires prefix.Some? ==> prefix.value == "" || IsSegment(prefix.value)
    ensures var id := Requested(prefix, heading);
            if prefix.Some? && prefix.value != "" then
              var dot := Find(id, '.');
              dot.Some? && id[..dot.value] == prefix.value && id[dot.value + 1..] == Sanitize(heading)
            else
              '.' !in id && id == if Sanitize(heading) != "" then Sanitize(heading) else "node"
  {
    var id, segment := Requested(prefix, heading), Sanitize(heading);
    SanitizeIsSegment(heading);
    if segment != "" { NoDotInSegment(segment); }
    if prefix.Some? && prefix.value != "" {
      NoDotInSegment(prefix.value);
      FindAt(prefix.value, '.', segment);
      assert id == prefix.value + ['.'] + segment;
    }
  }

  /** The id does not end in a dot and a numeral. */
  ghost predicate Unnumbered(id: string) {
    forall a, d :: id == a + "." + d && AllDigits(d) ==> d == ""
  }

  lemma NoDotInSegment(s: string)
    requires AllIdChars(s)
    ensures '.' !in s
  {
  }

  lemma NoDotUnnumbered(s: string)
    requires '.' !in s
    ensures Unnumbered(s)
  {
    forall a: string, d: string ensures '.' in a + "." + d {
      assert (a + "." + d)[|a|] == '.';
    }
  }

  /** No requested id looks like one with a collision suffix. */
  lemma RequestedUnnumbered(prefix: Option<string>, heading: string)
    requires prefix.Some? ==> prefix.value == "" || IsSegment(prefix.value)
    ensures Unnumbered(Requested(prefix, heading))
  {
    var id := Requested(prefix, heading);
    var segment := Sanitize(heading);
    SanitizeIsSegment(heading);
    assert '.' !in segment by { if segment != "" { NoDotInSegment(segment); } }
    if prefix.Some? && prefix.value != "" {
      forall a, d | id == a + "." + d && AllDigits(d) ensures d == "" {
        assert '.' !in d;
        LastSplit(prefix.value, segment, a, d, '.');
      }
    } else {
      assert '.' !in "node";
      NoDotUnnumbered(id);
    }
  }

  // ----- the closed form -----

  function Occurrences(bases: seq<string>, b: string): nat {
    if bases == [] then 0 else Occurrences(bases[..|bases| - 1], b) + if bases[|bases| - 1] == b then 1 else 0
  }

  lemma {:induction false} OccurrencesExact(bases: seq<string>, b: string)
    ensures Occurrences(bases, b) == multiset(bases)[b]
  {
    if bases != [] {
      var n := |bases| - 1;
      OccurrencesExact(bases[..n], b);
      assert bases == bases[..n] + [bases[n]];
    }
  }

  function Numbered(base: string, k: nat): string {
    if k == 0 then base else base + "." + Digits(k)
  }

  /** The id of the `i`-th request: its base, numbered by how often it was requested before. */
  function IdAt(bases: seq<string>, i: nat): string
    requires i < |bases|
  {
    Numbered(bases[i], Occurrences(bases[..i], bases[i]))
  }

  ghost function IdsOf(bases: seq<string>): set<string> {
    set i | 0 <= i < |bases| :: IdAt(bases, i)
  }

  lemma UnnumberedDiffers(a: string, b: string, k: nat)
    requires Unnumbered(a) && k > 0
    ensures Numbered(b, k) != a
  {
    var d := Digits(k);
    assert a == b + "." + d ==> d == "";
  }

  lemma NumberedInjective(a: string, j: nat, b: string, k: nat)
    requires Unnumbered(a) && Unnumbered(b) && Numbered(a, j) == Numbered(b, k)
    ensures a == b && j == k
  {
    if j > 0 && k > 0 {
      assert '.' !in Digits(j) && '.' !in Digits(k);
      LastSplit(a, Digits(j), b, Digits(k), '.');
      DigitsInjective(j, k);
    } else if j > 0 {
      UnnumberedDiffers(b, a, j);
    } else if k > 0 {
      UnnumberedDiffers(a, b, k);
    }
  }

  lemma {:induction false} OccurrencesGrow(bases: seq<string>, i: nat, j: nat, b: string)
    requires i <= j <= |bases|
    ensures Occurrences(bases[..i], b) <= Occurrences(bases[..j], b)
    ensures i < j && bases[i] == b ==> Occurrences(bases[..i], b) < Occurrences(bases[..j], b)
    decreases j
  {
    if i < j {
      assert bases[..j][..j - 1] == bases[..j - 1];
      OccurrencesGrow(bases, i, j - 1, b);
    }
  }

  /** All generated ids are distinct. */
  lemma IdsDistinct(bases: seq<string>, i: nat, j: nat)
    requires i < j < |bases| && Unnumbered(bases[i]) && Unnumbered(bases[j])
    ensures IdAt(bases, i) != IdAt(bases, j)
  {
    if IdAt(bases, i) == IdAt(bases, j) {
      NumberedInjective(bases[i], Occurrences(bases[..i], bases[i]), bases[j], Occurrences(bases[..j], bases[j]));
      OccurrencesGrow(bases, i, j, bases[i]);
    }
  }

  /** Every smaller number of a base has been used. */
  lemma {:induction false} OccurrenceUsed(bases: seq<string>, b: string, k: nat)
    requires k < Occurrences(bases, b)
    ensures Numbered(b, k) in IdsOf(bases)
  {
    var n := |bases| - 1;
    if bases[n] == b && Occurrences(bases[..n], b) == k {
      assert IdAt(bases, n) == Numbered(b, k);
    } else {
      OccurrenceUsed(bases[..n], b, k);
      var i :| 0 <= i < n && IdAt(bases[..n], i) == Numbered(b, k);
      assert bases[..n][..i] == bases[..i];
      assert IdAt(bases, i) == Numbered(b, k);
    }
  }

  /** A number of a base is in use exactly when the base was requested more often than that. */
  lemma UsedExact(bases: seq<string>, b: string, k: nat)
    requires Unnumbered(b) && forall x :: x in bases ==> Unnumbered(x)
    ensures Numbered(b, k) in IdsOf(bases) <==> k < Occurrences(bases, b)
  {
    if Numbered(b, k) in IdsOf(bases) {
      var i :| 0 <= i < |bases| && IdAt(bases, i) == Numbered(b, k);
      NumberedInjective(b, k, bases[i], Occurrences(bases[..i], bases[i]));
      OccurrencesGrow(bases, i, |bases|, b);
      assert bases[..|bases|] == bases;
    } else if k < Occurrences(bases, b) {
      OccurrenceUsed(bases, b, k);
    }
  }

  lemma IdsOfAppend(bases: seq<string>, b: string)
    ensures IdsOf(bases + [b]) == IdsOf(bases) + {Numbered(b, Occurrences(bases, b))}
  {
    var all := bases + [b];
    assert all[..|bases|] == bases;
    forall i | 0 <= i < |bases| ensures IdAt(all, i) == IdAt(bases, i) {
      assert all[..i] == bases[..i];
    }
    assert IdAt(all, |bases|) == Numbered(b, Occurrences(bases, b));
  }

  class Generator {
    var prefix: Option<string>
    var usedIds: set<string>
    ghost var bases: seq<string>

    ghost predicate Valid()
      reads this
    {
      && (prefix.Some? ==> prefix.value == "" || IsSegment(prefix.value))
      && usedIds == IdsOf(bases)
      && forall b :: b in bases ==> Unnumbered(b)
    }

    constructor (rawPrefix: Option<string>)
      ensures Valid() && bases == []
      ensures prefix == if rawPrefix.Some? then Some(Sanitize(rawPrefix.value)) else None
    {
      prefix, usedIds, bases := None, {}, [];
      new;
      if rawPrefix.Some? {
        var segment := SanitizeSegment(rawPrefix.value);
        SanitizeIsSegment(rawPrefix.value);
        prefix := Some(segment);
      }
    }

    /** After k earlier requests for the same base the id is the base, or for k > 0 the base with a
        dot and k behind it, and the flag says which. */
    method Generate(heading: string) returns (id: string, collision: bool)
      requires Valid()
      modifies this`usedIds, this`bases
      ensures Valid()
      ensures bases == old(bases) + [Requested(prefix, heading)]
      ensures id == IdAt(bases, |bases| - 1) && id !in old(usedIds)
      ensures var base := Requested(prefix, heading);
              var k := multiset(old(bases))[base];
              id == (if k == 0 then base else base + "." + Digits(k)) && (collision <==> k > 0)
    {
      var segment := SanitizeSegment(heading);
      var base := if prefix.Some? && prefix.value != "" then prefix.value + "." + segment else segment;
      RequestedUnnumbered(prefix, heading);
      if base == "" {
        id, collision := MakeUnique("node");
      } else {
        id, collision := MakeUnique(base);
      }
    }

    method MakeUnique(base: string) returns (id: string, collision: bool)
      requires Valid() && Unnumbered(base)
      modifies this`usedIds, this`bases
      ensures Valid()
      ensures bases == old(bases) + [base]
      ensures id == IdAt(bases, |bases| - 1) && id !in old(usedIds)
      ensures var k := multiset(old(bases))[base];
              id == (if k == 0 then base else base + "." + Digits(k)) && (collision <==> k > 0)
    {
      ghost var k := Occurrences(bases, base);
      OccurrencesExact(bases, base);
      IdsOfAppend(bases, base);
      assert (bases + [base])[..|bases|] == bases;
      UsedExact(bases, base, 0);
      UsedExact(bases, base, k);
      if base !in usedIds {
        usedIds := usedIds + {base};
        bases := bases + [base];
        return base, false;
      }
      var counter: nat := 1;
      while true
        invariant Valid() && bases == old(bases) && usedIds == old(usedIds)
        invariant 1 <= counter <= k
        decreases k - counter
      {
        var candidate := base + "." + Digits(counter);
        UsedExact(bases, base, counter);
        if candidate !in usedIds {
          usedIds := usedIds + {candidate};
          bases := bases + [base];
          return candidate, true;
        }
        counter := counter + 1;
      }
    }
  }

  // ----- the documented pattern -----

  /** A letter and then id characters. */
  predicate PlainSegment(s: string) {
    s != "" && IsLower(s[0]) && AllIdChars(s)
  }

  /** Plain segments separated by dots. */
  predicate IdPattern(s: string)
    decreases |s|
  {
    var dot := Find(s, '.');
    if dot.None? then PlainSegment(s) else PlainSegment(s[..dot.value]) && IdPattern(s[dot.value + 1..])
  }

  lemma {:induction false} PatternAppend(a: string, b: string)
    requires '.' !in b
    ensures IdPattern(a + "." + b) <==> IdPattern(a) && PlainSegment(b)
    decreases |a|
  {
    var s := a + "." + b;
    var dot := Find(a, '.');
    if dot.None? {
      FindAt(a, '.', b);
      assert s[..|a|] == a && s[|a| + 1..] == b;
      assert Find(b, '.').None?;
    } else {
      var head, rest := a[..dot.value], a[dot.value + 1..];
      assert a == head + "." + rest;
      assert s == head + "." + (rest + "." + b);
      FindAt(head, '.', rest + "." + b);
      assert s[..|head|] == head && s[|head| + 1..] == rest + "." + b;
      PatternAppend(rest, b);
    }
  }

  /** A generated id has the documented shape exactly when it carries no collision suffix and
      is not a prefix with nothing behind it. */
  lemma PatternExact(prefix: Option<string>, heading: string, k: nat)
    requires prefix.Some? ==> prefix.value == "" || IsSegment(prefix.value)
    ensures IdPattern(Numbered(Requested(prefix, heading), k)) <==>
            k == 0 && !(prefix.Some? && prefix.value != "" && Sanitize(heading) == "")
  {
    RequestedPattern(prefix, heading);
    if k > 0 {
      assert '.' !in Digits(k);
      PatternAppend(Requested(prefix, heading), Digits(k));
      assert IsDigit(Digits(k)[0]);
    }
  }

  lemma RequestedPattern(prefix: Option<string>, heading: string)
    requires prefix.Some? ==> prefix.value == "" || IsSegment(prefix.value)
    ensures IdPattern(Requested(prefix, heading)) <==>
            !(prefix.Some? && prefix.value != "" && Sanitize(heading) == "")
  {
    var segment := Sanitize(heading);
    SanitizeIsSegment(heading);
    if segment != "" { NoDotInSegment(segment); }
    if prefix.Some? && prefix.value != "" {
      NoDotInSegment(prefix.value);
      assert Find(prefix.value, '.').None?;
      PatternAppend(prefix.value, segment);
    } else {
      assert Find(segment, '.').None?;
      assert Find("node", '.').None? && PlainSegment("node");
    }
  }
}
