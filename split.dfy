/** String splitting as the runtime's `split` entry point does it:
    `oro_strsep` cuts one token at a time off a cursor into a duplicated
    buffer, and `split_string` collects the tokens in order. */
module Split {
  import opened Wrappers
  import opened CStrings

  /** The strsep cursor: a position in the duplicated buffer, or NULL once the
      last token has been handed out. */
  datatype Cursor = Null | At(pos: nat)

  /** The tokens that strsep hands out from position `from` on: the text up
      to the next delimiter, then the tokens after it; the last token runs to
      the end of the buffer. */
  function TokensFrom(s: string, from: nat, d: set<char>): (ts: seq<string>)
    requires from <= |s|
    ensures |ts| >= 1
    decreases |s| - from
  {
    var i := FirstIn(s, from, d);
    if i == |s| then [s[from..]] else [s[from..i]] + TokensFrom(s, i + 1, d)
  }

  function Tokens(s: string, d: set<char>): (ts: seq<string>)
  {
    TokensFrom(s, 0, d)
  }

  /** The delimiter set named by the `delim` argument, read as a C string. */
  function DelimSet(delim: string): set<char>
  {
    set c | c in CStr(delim)
  }

  /** How many characters of `s` from `from` on are delimiters. */
  function CountIn(s: string, from: nat, d: set<char>): nat
    requires from <= |s|
    decreases |s| - from
  {
    if from == |s| then 0 else (if s[from] in d then 1 else 0) + CountIn(s, from + 1, d)
  }

  /** No character of `t` is in `d`. */
  predicate NoneIn(t: string, d: set<char>)
  {
    forall k :: 0 <= k < |t| ==> t[k] !in d
  }

  /** Joins tokens with one separator character between neighbours. */
  function Join(ts: seq<string>, c: char): string
    requires |ts| >= 1
  {
    if |ts| == 1 then ts[0] else ts[0] + [c] + Join(ts[1..], c)
  }

  /** One call of `oro_strsep`: returns the token at the cursor and moves the
      cursor past the delimiter that ends it, or to NULL if the token runs to
      the end. Writing the NUL over the delimiter is modelled by ending the
      token there. */
  method StrSep(s: string, cursor: Cursor, d: set<char>) returns (token: Option<string>, next: Cursor)
    requires cursor.At? ==> cursor.pos <= |s|
    ensures cursor.Null? ==> token.None? && next.Null?
    ensures cursor.At? ==>
      var i := FirstIn(s, cursor.pos, d);
      token == Some(s[cursor.pos..i]) && next == (if i < |s| then At(i + 1) else Null)
    ensures next.At? ==> cursor.At? && cursor.pos < next.pos <= |s|
    ensures cursor.At? ==> (token.Some? &&
      TokensFrom(s, cursor.pos, d) == [token.value] + (if next.At? then TokensFrom(s, next.pos, d) else []))
  {
    if cursor.Null? {
      return None, Null;
    }
    var start := cursor.pos;
    var stop := FirstIn(s, start, d);
    if stop < |s| {
      next := At(stop + 1);
    } else {
      next := Null;
    }
    token := Some(s[start..stop]);
    assert stop == |s| ==> s[start..stop] == s[start..];
  }

  /** `split_string`: the tokens of `str` (read as a C string) on any
      character of `delim`, in order. */
  method SplitString(str: string, delim: string) returns (tokens: seq<string>)
    ensures tokens == Tokens(CStr(str), DelimSet(delim))
  {
    var s := CStr(str);
    var d := DelimSet(delim);
    tokens := [];
    var cursor := At(0);
    var token: Option<string>;
    token, cursor := StrSep(s, cursor, d);
    while token.Some?
      invariant cursor.At? ==> cursor.pos <= |s|
      invariant token.Some? ==> tokens + [token.value] + (if cursor.At? then TokensFrom(s, cursor.pos, d) else []) == Tokens(s, d)
      invariant token.None? ==> tokens == Tokens(s, d)
      decreases if cursor.At? then |s| + 2 - cursor.pos else if token.Some? then 1 else 0
    {
      tokens := tokens + [token.value];
      var prev := cursor;
      token, cursor := StrSep(s, cursor, d);
      assert prev.Null? ==> tokens == Tokens(s, d);
    }
  }

  /** Delimiters between `from` and a delimiter-free index can be skipped. */
  lemma {:induction false} CountSkip(s: string, from: nat, i: nat, d: set<char>)
    requires from <= i <= |s|
    requires forall k :: from <= k < i ==> s[k] !in d
    ensures CountIn(s, from, d) == CountIn(s, i, d)
    decreases i - from
  {
    if from < i {
      CountSkip(s, from + 1, i, d);
    }
  }

  /** Splitting yields one more token than there are delimiter characters:
      empty tokens are kept, none is dropped. */
  lemma {:induction false} TokensFromCount(s: string, from: nat, d: set<char>)
    requires from <= |s|
    ensures |TokensFrom(s, from, d)| == CountIn(s, from, d) + 1
    decreases |s| - from
  {
    var i := FirstIn(s, from, d);
    CountSkip(s, from, i, d);
    if i < |s| {
      TokensFromCount(s, i + 1, d);
    }
  }

  lemma TokensCount(s: string, d: set<char>)
    ensures |Tokens(s, d)| == CountIn(s, 0, d) + 1
  {
    TokensFromCount(s, 0, d);
  }

  /** No token contains a delimiter character. */
  lemma {:induction false} TokensFromClean(s: string, from: nat, d: set<char>)
    requires from <= |s|
    ensures forall t :: t in TokensFrom(s, from, d) ==> NoneIn(t, d)
    decreases |s| - from
  {
    var i := FirstIn(s, from, d);
    if i < |s| {
      TokensFromClean(s, i + 1, d);
    }
  }

  /** With a single delimiter character, joining the tokens with it gives the
      input back. */
  lemma {:induction false} JoinTokensFrom(s: string, from: nat, c: char)
    requires from <= |s|
    ensures Join(TokensFrom(s, from, {c}), c) == s[from..]
    decreases |s| - from
  {
    var i := FirstIn(s, from, {c});
    if i < |s| {
      var ts := TokensFrom(s, from, {c});
      var rest := TokensFrom(s, i + 1, {c});
      JoinTokensFrom(s, i + 1, c);
      assert ts == [s[from..i]] + rest;
      assert ts[0] == s[from..i] && ts[1..] == rest;
      assert s[i] == c;
      assert s[from..] == s[from..i] + [s[i]] + s[i + 1..];
    }
  }

  lemma JoinTokens(s: string, c: char)
    ensures Join(Tokens(s, {c}), c) == s
  {
    JoinTokensFrom(s, 0, c);
  }

  /** The first separator after a separator-free part is the one that ends
      it, and what follows is the rest. */
  lemma SeparatorAfter(s: string, from: nat, t: string, c: char, rest: string)
    requires NoneIn(t, {c})
    requires from <= |s| && s[from..] == t + [c] + rest
    ensures FirstIn(s, from, {c}) == from + |t|
    ensures s[from + |t| + 1..] == rest
  {
    var i := from + |t|;
    forall k | from <= k < i
      ensures s[k] !in {c}
    {
      assert s[k] == s[from..][k - from];
    }
    assert s[i] == s[from..][|t|];
    FirstInUnique(s, from, {c}, i);
    assert s[i + 1..] == s[from..][|t| + 1..];
  }

  /** A separator-free tail is a single token. */
  lemma LastPart(s: string, from: nat, c: char)
    requires from <= |s| && NoneIn(s[from..], {c})
    ensures FirstIn(s, from, {c}) == |s|
  {
    forall k | from <= k < |s|
      ensures s[k] !in {c}
    {
      assert s[k] == s[from..][k - from];
    }
    FirstInUnique(s, from, {c}, |s|);
  }

  /** Conversely, splitting a join on its separator gives the parts back,
      provided no part contains the separator. */
  lemma {:induction false} TokensFromJoin(ts: seq<string>, c: char, s: string, from: nat)
    requires |ts| >= 1
    requires forall t :: t in ts ==> NoneIn(t, {c})
    requires from <= |s| && s[from..] == Join(ts, c)
    ensures TokensFrom(s, from, {c}) == ts
    decreases |ts|
  {
    assert ts[0] in ts;
    if |ts| == 1 {
      LastPart(s, from, c);
      assert TokensFrom(s, from, {c}) == [s[from..]];
    } else {
      var i := from + |ts[0]|;
      SeparatorAfter(s, from, ts[0], c, Join(ts[1..], c));
      TokensFromJoin(ts[1..], c, s, i + 1);
      assert s[from..i] == s[from..][..|ts[0]|] == ts[0];
      assert TokensFrom(s, from, {c}) == [s[from..i]] + TokensFrom(s, i + 1, {c});
      assert ts == [ts[0]] + ts[1..];
    }
  }

  lemma TokensJoin(ts: seq<string>, c: char)
    requires |ts| >= 1
    requires forall t :: t in ts ==> NoneIn(t, {c})
    ensures Tokens(Join(ts, c), {c}) == ts
  {
    TokensFromJoin(ts, c, Join(ts, c), 0);
  }
}
