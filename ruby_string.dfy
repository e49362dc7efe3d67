/** The few String operations of Ruby's core library that the client
    relies on: `split` (error messages, qualified class names), string
    interpolation of integers, ASCII `downcase` and the whitespace class
    behind ActiveSupport's `blank?`. */
module RubyString {

  /** `s.split(sep, -1)`: the pieces of `s` between the occurrences of
      `sep`, found from left to right, empty pieces included. */
  function SplitAll(s: string, sep: string): (parts: seq<string>)
    requires |sep| > 0
    ensures |parts| >= 1
    decreases |s|
  {
    if |s| < |sep| then [s]
    else if s[..|sep|] == sep then [""] + SplitAll(s[|sep|..], sep)
    else
      var rest := SplitAll(s[1..], sep);
      [[s[0]] + rest[0]] + rest[1..]
  }

  /** `s.split(sep)`: as `SplitAll`, but Ruby drops the empty pieces at
      the end, so `"".split(sep)` is `[]`. */
  function Split(s: string, sep: string): seq<string>
    requires |sep| > 0
  {
    DropTrailingEmpty(SplitAll(s, sep))
  }

  /** `parts` without its empty strings at the end: a prefix of `parts`
      that is empty or ends in a non-empty string, and nothing but empty
      strings follow it. */
  function DropTrailingEmpty(parts: seq<string>): (r: seq<string>)
    ensures |r| <= |parts| && r == parts[..|r|]
    ensures forall i :: |r| <= i < |parts| ==> parts[i] == ""
    ensures r == [] || r[|r| - 1] != ""
  {
    if parts == [] then []
    else if parts[|parts| - 1] == "" then DropTrailingEmpty(parts[..|parts| - 1])
    else parts
  }

  /** `parts.join(sep)`. */
  function Join(parts: seq<string>, sep: string): string {
    if parts == [] then ""
    else if |parts| == 1 then parts[0]
    else parts[0] + sep + Join(parts[1..], sep)
  }

  /** Joining the pieces back with the separator gives the string that was
      split. */
  lemma {:induction false} JoinSplitAll(s: string, sep: string)
    requires |sep| > 0
    ensures Join(SplitAll(s, sep), sep) == s
    decreases |s|
  {
    if |s| >= |sep| {
      if s[..|sep|] == sep {
        JoinSplitAll(s[|sep|..], sep);
        JoinCons("", SplitAll(s[|sep|..], sep), sep);
        assert s == "" + sep + s[|sep|..];
      } else {
        JoinSplitAll(s[1..], sep);
        JoinGlue(s[0], SplitAll(s[1..], sep), sep);
        assert s == [s[0]] + s[1..];
      }
    }
  }

  lemma JoinCons(first: string, rest: seq<string>, sep: string)
    requires |rest| >= 1
    ensures Join([first] + rest, sep) == first + sep + Join(rest, sep)
  {
    assert ([first] + rest)[1..] == rest;
  }

  /** Gluing a character to the first part puts it in front of the
      join. */
  lemma JoinGlue(c: char, parts: seq<string>, sep: string)
    requires |parts| >= 1
    ensures Join([[c] + parts[0]] + parts[1..], sep) == [c] + Join(parts, sep)
  {
    var r := [[c] + parts[0]] + parts[1..];
    if |parts| > 1 {
      assert r[1..] == parts[1..];
    }
  }

  /** A leading part without the separator's first character is glued to
      the first piece of what follows it. */
  lemma {:induction false} SplitAllPrefix(a: string, rest: string, sep: string)
    requires |sep| > 0
    requires forall i :: 0 <= i < |a| ==> a[i] != sep[0]
    ensures SplitAll(a + rest, sep) == [a + SplitAll(rest, sep)[0]] + SplitAll(rest, sep)[1..]
    decreases |a|
  {
    var r := SplitAll(rest, sep);
    if a == [] {
      assert a + rest == rest;
      assert a + r[0] == r[0];
      assert [r[0]] + r[1..] == r;
    } else {
      var s := a + rest;
      if |s| < |sep| {
        assert r == [rest];
      } else {
        assert s[0] == a[0];
        assert s[..|sep|][0] != sep[0];
        assert s[1..] == a[1..] + rest;
        SplitAllPrefix(a[1..], rest, sep);
        var r' := SplitAll(s[1..], sep);
        assert r' == [a[1..] + r[0]] + r[1..];
        assert SplitAll(s, sep) == [[s[0]] + r'[0]] + r'[1..];
        assert [s[0]] + (a[1..] + r[0]) == a + r[0];
      }
    }
  }

  lemma SplitAllAfterSep(b: string, sep: string)
    requires |sep| > 0
    ensures SplitAll(sep + b, sep) == [""] + SplitAll(b, sep)
  {
    assert (sep + b)[..|sep|] == sep;
    assert (sep + b)[|sep|..] == b;
  }

  /** Splitting on a one-character separator finds no separator inside a
      piece. */
  lemma {:induction false} SplitAllPiecesFree(s: string, c: char)
    ensures forall i :: 0 <= i < |SplitAll(s, [c])| ==> c !in SplitAll(s, [c])[i]
    decreases |s|
  {
    if |s| >= 1 {
      SplitAllPiecesFree(s[|[c]|..], c);
      if s[..1] != [c] {
        assert s[0] != c;
      }
    }
  }

  /** `split` undoes `join` when no part holds the (one-character)
      separator. */
  lemma {:induction false} SplitAllJoin(parts: seq<string>, c: char)
    requires |parts| >= 1
    requires forall i :: 0 <= i < |parts| ==> c !in parts[i]
    ensures SplitAll(Join(parts, [c]), [c]) == parts
  {
    SplitAllPrefix(parts[0], if |parts| == 1 then "" else [c] + Join(parts[1..], [c]), [c]);
    if |parts| == 1 {
      assert parts[0] + "" == parts[0];
    } else {
      assert Join(parts, [c]) == parts[0] + ([c] + Join(parts[1..], [c]));
      SplitAllAfterSep(Join(parts[1..], [c]), [c]);
      SplitAllJoin(parts[1..], c);
      var r := SplitAll([c] + Join(parts[1..], [c]), [c]);
      assert r == [""] + parts[1..];
      assert r[0] == "" && r[1..] == parts[1..];
      assert parts[0] + "" == parts[0];
      assert parts == [parts[0]] + parts[1..];
    }
  }

  /** Joining one more part appends the separator and that part. */
  lemma {:induction false} JoinSnoc(parts: seq<string>, last: string, sep: string)
    requires |parts| >= 1
    ensures Join(parts + [last], sep) == Join(parts, sep) + sep + last
    decreases |parts|
  {
    var all := parts + [last];
    assert all[1..] == parts[1..] + [last];
    if |parts| > 1 {
      JoinSnoc(parts[1..], last, sep);
    }
  }

  /** A non-empty string that does not end with the separator character
      has a non-empty last piece. */
  lemma {:induction false} SplitAllLastPiece(s: string, c: char)
    requires s != [] && s[|s| - 1] != c
    ensures var parts := SplitAll(s, [c]); parts[|parts| - 1] != ""
    decreases |s|
  {
    if s[..1] == [c] {
      SplitAllLastPiece(s[1..], c);
    } else if |s| > 1 {
      SplitAllLastPiece(s[1..], c);
    }
  }

  /** `message.split("\n")`: the lines hold no line break, none is empty at
      the end, and joining them with line breaks gives the message back
      when it does not end in one. */
  lemma SplitLines(message: string)
    ensures forall i :: 0 <= i < |Split(message, "\n")| ==> '\n' !in Split(message, "\n")[i]
    ensures Split(message, "\n") == [] || Split(message, "\n")[|Split(message, "\n")| - 1] != ""
    ensures message != [] && message[|message| - 1] != '\n' ==> Join(Split(message, "\n"), "\n") == message
  {
    var all := SplitAll(message, "\n");
    SplitAllPiecesFree(message, '\n');
    var lines := Split(message, "\n");
    forall i | 0 <= i < |lines| ensures '\n' !in lines[i] {
      assert lines[i] == all[i];
    }
    if message != [] && message[|message| - 1] != '\n' {
      SplitAllLastPiece(message, '\n');
      JoinSplitAll(message, "\n");
      assert lines == all;
    }
  }

  /** String#downcase on ASCII letters; other characters are kept. */
  function DowncaseChar(c: char): char {
    if 'A' <= c <= 'Z' then (c as int - 'A' as int + 'a' as int) as char else c
  }

  function Downcase(s: string): string {
    seq(|s|, i requires 0 <= i < |s| => DowncaseChar(s[i]))
  }

  /** `n.to_s` for a non-negative integer: its decimal digits, most
      significant first. */
  function NatToS(n: nat): (r: string)
    ensures |r| >= 1 && forall i :: 0 <= i < |r| ==> '0' <= r[i] <= '9'
  {
    var d := ('0' as int + n % 10) as char;
    if n < 10 then [d] else NatToS(n / 10) + [d]
  }

  /** `i.to_s`, with a leading minus sign for a negative integer. */
  function IntToS(i: int): (r: string)
    ensures '/' !in r
  {
    if i < 0 then "-" + NatToS(-i) else NatToS(i)
  }

  /** The characters of the POSIX class `[[:space:]]` on Unicode strings,
      i.e. those with the White_Space property: what ActiveSupport's
      `String#blank?` allows in a blank string. */
  predicate IsSpace(c: char) {
    || '\t' <= c <= '\r' || c == ' ' || c == '\U{0085}' || c == '\U{00A0}' || c == '\U{1680}'
    || '\U{2000}' <= c <= '\U{200A}' || c == '\U{2028}' || c == '\U{2029}' || c == '\U{202F}'
    || c == '\U{205F}' || c == '\U{3000}'
  }

  predicate AllSpace(s: string) {
    forall i :: 0 <= i < |s| ==> IsSpace(s[i])
  }
}
