/**
 * The string handling the task form relies on: ECMAScript's String.prototype.trim,
 * String.prototype.split with a one-character separator, and the tag parsing built
 * from them. Characters are Unicode scalar values; every character trim removes lies
 * in the Basic Multilingual Plane, so UTF-16 code units and scalar values agree on it.
 */
module Text {

  /** The characters trim removes: ECMAScript WhiteSpace (including category Zs) and LineTerminator. */
  predicate IsWhitespace(c: char) {
    c == '\t' || c == '\n' || c == '\U{000B}' || c == '\U{000C}' || c == '\r' || c == ' '
    || c == '\U{00A0}' || c == '\U{1680}' || ('\U{2000}' <= c <= '\U{200A}')
    || c == '\U{2028}' || c == '\U{2029}' || c == '\U{202F}' || c == '\U{205F}'
    || c == '\U{3000}' || c == '\U{FEFF}'
  }

  /** `s` without its leading whitespace: a suffix of `s` that is empty or starts with a non-whitespace character. */
  function TrimStart(s: string): (r: string)
    ensures |r| <= |s| && r == s[|s| - |r|..]
    ensures forall k :: 0 <= k < |s| - |r| ==> IsWhitespace(s[k])
    ensures r == [] || !IsWhitespace(r[0])
  {
    if s != [] && IsWhitespace(s[0]) then TrimStart(s[1..]) else s
  }

  /** `s` without its trailing whitespace: a prefix of `s` that is empty or ends with a non-whitespace character. */
  function TrimEnd(s: string): (r: string)
    ensures |r| <= |s| && r == s[..|r|]
    ensures forall k :: |r| <= k < |s| ==> IsWhitespace(s[k])
    ensures r == [] || !IsWhitespace(r[|r| - 1])
  {
    if s != [] && IsWhitespace(s[|s| - 1]) then TrimEnd(s[..|s| - 1]) else s
  }

  /**
   * String.prototype.trim: the piece of `s` that remains once the leading whitespace
   * and then the trailing whitespace are dropped; it neither starts nor ends with whitespace.
   */
  function Trim(s: string): (r: string)
    ensures |TrimStart(s)| <= |s| && |r| <= |TrimStart(s)|
    ensures r == s[|s| - |TrimStart(s)|..][..|r|]
    ensures forall k :: |s| - |TrimStart(s)| + |r| <= k < |s| ==> IsWhitespace(s[k])
    ensures r == [] || (!IsWhitespace(r[0]) && !IsWhitespace(r[|r| - 1]))
  {
    TrimEnd(TrimStart(s))
  }

  /** Trim gives the empty string exactly when every character is whitespace. */
  lemma TrimBlank(s: string)
    ensures Trim(s) == [] <==> forall k :: 0 <= k < |s| ==> IsWhitespace(s[k])
  {
    var t := TrimStart(s);
    var d := |s| - |t|;
    if Trim(s) == [] {
      // TrimEnd leaves nothing of `t` only when `t` is itself empty, so all of `s` was dropped as leading whitespace.
      assert t == [];
    } else {
      assert s[d] == Trim(s)[0];
    }
  }

  /** Trim keeps only characters of its input. */
  lemma TrimChars(s: string)
    ensures forall c :: c in Trim(s) ==> c in s
  {
    var r := Trim(s);
    var d := |s| - |TrimStart(s)|;
    forall c | c in r ensures c in s {
      var k :| 0 <= k < |r| && r[k] == c;
      assert s[d + k] == c;
    }
  }

  /** Trimming a trimmed string changes nothing. */
  lemma TrimIdempotent(s: string)
    ensures Trim(Trim(s)) == Trim(s)
  {
    var r := Trim(s);
    if r != [] {
      assert TrimStart(r) == r;
      assert TrimEnd(r) == r;
    }
  }

  /** The pieces joined back together with `sep` between neighbours (Array.prototype.join). */
  function Join(pieces: seq<string>, sep: char): string
  {
    if |pieces| == 0 then ""
    else if |pieces| == 1 then pieces[0]
    else pieces[0] + [sep] + Join(pieces[1..], sep)
  }

  /**
   * String.prototype.split with a one-character separator. Empty pieces are kept; the
   * empty string splits into one empty piece.
   */
  function Split(s: string, sep: char): (r: seq<string>)
    ensures |r| >= 1
  {
    if s == [] then [""]
    else
      var rest := Split(s[1..], sep);
      if s[0] == sep then [""] + rest
      else [[s[0]] + rest[0]] + rest[1..]
  }

  /** There is one piece more than there are separators. */
  lemma {:induction false} SplitCount(s: string, sep: char)
    ensures |Split(s, sep)| == multiset(s)[sep] + 1
  {
    if s != [] {
      SplitCount(s[1..], sep);
      assert s == [s[0]] + s[1..];
    }
  }

  /** No piece contains the separator, and joining the pieces with it gives the string back. */
  lemma {:induction false} JoinSplit(s: string, sep: char)
    ensures forall i :: 0 <= i < |Split(s, sep)| ==> sep !in Split(s, sep)[i]
    ensures Join(Split(s, sep), sep) == s
  {
    if s != [] {
      JoinSplit(s[1..], sep);
      var rest := Split(s[1..], sep);
      assert s == [s[0]] + s[1..];
      if s[0] == sep {
        JoinPrepend("", rest, sep);
      } else {
        JoinExtend(s[0], rest, sep);
      }
    }
  }

  lemma JoinPrepend(p: string, rest: seq<string>, sep: char)
    requires |rest| >= 1
    ensures Join([p] + rest, sep) == p + [sep] + Join(rest, sep)
  {
    assert ([p] + rest)[1..] == rest;
  }

  lemma JoinExtend(c: char, rest: seq<string>, sep: char)
    requires |rest| >= 1
    ensures Join([[c] + rest[0]] + rest[1..], sep) == [c] + Join(rest, sep)
  {
    if |rest| > 1 {
      JoinPrepend([c] + rest[0], rest[1..], sep);
      JoinPrepend(rest[0], rest[1..], sep);
      assert [rest[0]] + rest[1..] == rest;
    }
  }

  lemma {:induction false} SplitWithoutSeparator(p: string, sep: char)
    requires sep !in p
    ensures Split(p, sep) == [p]
  {
    if p != [] {
      SplitWithoutSeparator(p[1..], sep);
      assert [p[0]] + p[1..] == p;
    }
  }

  /** A first character other than the separator joins the first piece of the rest. */
  lemma SplitCons(c: char, u: string, sep: char)
    requires c != sep
    ensures Split([c] + u, sep) == [[c] + Split(u, sep)[0]] + Split(u, sep)[1..]
  {
    assert ([c] + u)[1..] == u;
  }

  /** Splitting at the first separator yields the part before it, then the split of the rest. */
  lemma {:induction false} SplitAtSeparator(p: string, t: string, sep: char)
    requires sep !in p
    ensures Split(p + [sep] + t, sep) == [p] + Split(t, sep)
  {
    if p == [] {
      assert p + [sep] + t == [sep] + t;
      assert ([sep] + t)[1..] == t;
    } else {
      var u := p[1..] + [sep] + t;
      assert p + [sep] + t == [p[0]] + u;
      SplitAtSeparator(p[1..], t, sep);
      SplitCons(p[0], u, sep);
      assert [p[0]] + p[1..] == p;
    }
  }

  /** Split undoes Join when no piece contains the separator. */
  lemma {:induction false} SplitJoin(pieces: seq<string>, sep: char)
    requires |pieces| >= 1
    requires forall i :: 0 <= i < |pieces| ==> sep !in pieces[i]
    ensures Split(Join(pieces, sep), sep) == pieces
  {
    if |pieces| == 1 {
      SplitWithoutSeparator(pieces[0], sep);
    } else {
      SplitJoin(pieces[1..], sep);
      SplitAtSeparator(pieces[0], Join(pieces[1..], sep), sep);
      assert [pieces[0]] + pieces[1..] == pieces;
    }
  }

  /** `pieces.map(piece => piece.trim())`. */
  function TrimEach(pieces: seq<string>): (r: seq<string>)
    ensures |r| == |pieces|
    ensures forall i :: 0 <= i < |r| ==> r[i] == Trim(pieces[i])
  {
    if pieces == [] then [] else [Trim(pieces[0])] + TrimEach(pieces[1..])
  }

  /**
   * The tag field of the task form: the empty string gives no tags; any other string is
   * split at every comma and each piece is trimmed, empty pieces included.
   */
  function ParseTags(tags: string): (r: seq<string>)
    ensures tags == "" <==> r == []
  {
    if tags == "" then [] else TrimEach(Split(tags, ','))
  }

  /**
   * A non-empty tag text gives one tag more than it has commas; tag i is piece i of the
   * comma split, trimmed, so it holds no comma and has no surrounding whitespace.
   */
  lemma ParseTagsSpec(tags: string)
    requires tags != ""
    ensures |ParseTags(tags)| == multiset(tags)[','] + 1
    ensures forall i :: 0 <= i < |ParseTags(tags)| ==> ParseTags(tags)[i] == Trim(Split(tags, ',')[i])
    ensures forall i :: 0 <= i < |ParseTags(tags)| ==>
      ',' !in ParseTags(tags)[i] && Trim(ParseTags(tags)[i]) == ParseTags(tags)[i]
  {
    SplitCount(tags, ',');
    JoinSplit(tags, ',');
    var pieces := Split(tags, ',');
    forall i | 0 <= i < |pieces| ensures Trim(Trim(pieces[i])) == Trim(pieces[i]) && ',' !in Trim(pieces[i]) {
      TrimIdempotent(pieces[i]);
      TrimChars(pieces[i]);
    }
  }

  /** Tags that are already trimmed and comma-free come back unchanged from their comma-joined form. */
  lemma ParseTagsJoin(tags: seq<string>)
    requires Join(tags, ',') != ""
    requires forall i :: 0 <= i < |tags| ==> ',' !in tags[i] && Trim(tags[i]) == tags[i]
    ensures ParseTags(Join(tags, ',')) == tags
  {
    SplitJoin(tags, ',');
  }

  lemma SplitPair(p: string, q: string, sep: char)
    requires sep !in p && sep !in q
    ensures Split(p + [sep] + q, sep) == [p, q]
  {
    SplitAtSeparator(p, q, sep);
    SplitWithoutSeparator(q, sep);
  }

  /** An input with one comma gives two tags: each side of the comma, trimmed. */
  lemma ParseTagsPair(p: string, q: string)
    requires ',' !in p && ',' !in q
    ensures ParseTags(p + [','] + q) == [Trim(p), Trim(q)]
  {
    SplitPair(p, q, ',');
  }

  /** A string that neither starts nor ends with whitespace is its own trim. */
  lemma TrimOfTrimmed(w: string)
    requires w == [] || (!IsWhitespace(w[0]) && !IsWhitespace(w[|w| - 1]))
    ensures Trim(w) == w
  {
  }

  /** A leading blank makes no difference to the trim. */
  lemma TrimLeadingSpace(w: string)
    ensures Trim([' '] + w) == Trim(w)
  {
    assert ([' '] + w)[1..] == w;
    assert TrimStart([' '] + w) == TrimStart(w);
  }

  /** A trailing comma is not dropped: it yields a final empty tag. */
  lemma ParseTagsTrailingComma(p: string)
    requires ',' !in p
    ensures ParseTags(p + [',']) == [Trim(p), ""]
  {
    assert p + [','] == p + [','] + "";
    ParseTagsPair(p, "");
  }

  /** Two trimmed comma-free words written as "a, b" come back as the tags a and b. */
  lemma ParseTagsCommaSpace(a: string, b: string)
    requires ',' !in a && ',' !in b
    requires a == [] || (!IsWhitespace(a[0]) && !IsWhitespace(a[|a| - 1]))
    requires b == [] || (!IsWhitespace(b[0]) && !IsWhitespace(b[|b| - 1]))
    ensures ParseTags(a + [','] + ([' '] + b)) == [a, b]
  {
    var spaced := [' '] + b;
    ParseTagsPair(a, spaced);
    assert Trim(a) == a by { TrimOfTrimmed(a); }
    assert Trim(spaced) == b by { TrimLeadingSpace(b); TrimOfTrimmed(b); }
  }

  /** The tag text "urgent, client" gives the tags "urgent" and "client". */
  lemma ParseTagsUrgentClient()
    ensures ParseTags("urgent" + [','] + ([' '] + "client")) == ["urgent", "client"]
  {
    ParseTagsCommaSpace("urgent", "client");
  }
}
