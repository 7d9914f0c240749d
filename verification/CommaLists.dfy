/** Comma-separated lists, as base::SplitString reads them with whitespace trimmed and empty items dropped. */
module CommaLists {
  /** ASCII whitespace: tab, line feed, vertical tab, form feed, carriage return and space. */
  predicate IsSpace(c: char) {
    c == ' ' || 9 as char <= c <= 13 as char
  }

  function TrimLeft(s: string): (r: string)
    ensures r != "" ==> !IsSpace(r[0])
    ensures |r| <= |s| && r == s[|s| - |r|..]
  {
    if s != "" && IsSpace(s[0]) then TrimLeft(s[1..]) else s
  }

  function TrimRight(s: string): (r: string)
    ensures r != "" ==> !IsSpace(r[|r| - 1])
    ensures |r| <= |s| && r == s[..|r|]
  {
    if s != "" && IsSpace(s[|s| - 1]) then TrimRight(s[..|s| - 1]) else s
  }

  function Trim(s: string): string {
    TrimRight(TrimLeft(s))
  }

  /** An item that splitting leaves as it is. */
  predicate Clean(token: string) {
    && token != "" && ',' !in token
    && !IsSpace(token[0]) && !IsSpace(token[|token| - 1])
  }

  predicate AllClean(tokens: seq<string>) {
    forall i :: 0 <= i < |tokens| ==> Clean(tokens[i])
  }

  function FindComma(s: string): (n: nat)
    ensures n <= |s| && ',' !in s[..n]
    ensures n < |s| ==> s[n] == ','
  {
    if s == "" || s[0] == ',' then 0
    else
      assert s[..1 + FindComma(s[1..])] == [s[0]] + s[1..][..FindComma(s[1..])];
      1 + FindComma(s[1..])
  }

  function Item(piece: string): (tokens: seq<string>)
    requires ',' !in piece
    ensures AllClean(tokens)
  {
    var t := Trim(piece);
    if t == "" then [] else [t]
  }

  /** The items of a list. */
  function Tokens(s: string): (tokens: seq<string>)
    ensures AllClean(tokens)
    decreases |s|
  {
    hide Trim, FindComma, Clean;
    var n := FindComma(s);
    if n == |s| then
      assert s[..n] == s;
      Item(s)
    else Item(s[..n]) + Tokens(s[n + 1..])
  }

  function Join(tokens: seq<string>): string {
    if tokens == [] then ""
    else if |tokens| == 1 then tokens[0]
    else tokens[0] + "," + Join(tokens[1..])
  }

  // ---------- Splitting undoes joining ----------

  lemma TrimClean(token: string)
    requires Clean(token)
    ensures Item(token) == [token]
  {
  }

  lemma FindCommaUnique(s: string, n: nat)
    requires n <= |s| && ',' !in s[..n] && (n < |s| ==> s[n] == ',')
    ensures FindComma(s) == n
  {
    var k := FindComma(s);
    assert forall i :: 0 <= i < n ==> s[..n][i] == s[i];
    assert forall i :: 0 <= i < k ==> s[..k][i] == s[i];
  }

  lemma TokensOfPiece(piece: string)
    requires ',' !in piece
    ensures Tokens(piece) == Item(piece)
  {
    assert piece[..|piece|] == piece;
    FindCommaUnique(piece, |piece|);
  }

  lemma TokensCons(piece: string, rest: string)
    requires ',' !in piece
    ensures Tokens(piece + "," + rest) == Item(piece) + Tokens(rest)
  {
    var s := piece + "," + rest;
    assert s[..|piece|] == piece && s[|piece| + 1..] == rest;
    FindCommaUnique(s, |piece|);
  }

  /** Splitting gives back the items that were joined. */
  lemma {:induction false} SplitJoin(tokens: seq<string>)
    requires AllClean(tokens)
    ensures Tokens(Join(tokens)) == tokens
  {
    hide Item, Tokens, Clean;
    if tokens == [] {
      TokensOfPiece("");
      EmptyItem();
    } else {
      CleanItem(tokens[0]);
      if |tokens| == 1 {
        TokensOfPiece(tokens[0]);
      } else {
        SplitJoin(tokens[1..]);
        TokensCons(tokens[0], Join(tokens[1..]));
      }
    }
  }

  lemma {:induction false} JoinSnoc(tokens: seq<string>, t: string)
    ensures Join(tokens + [t]) == if tokens == [] then t else Join(tokens) + "," + t
  {
    if tokens != [] {
      JoinSnoc(tokens[1..], t);
      assert (tokens + [t])[1..] == tokens[1..] + [t];
    }
  }

  lemma EmptyItem()
    ensures Item("") == []
  {
  }

  lemma CleanItem(token: string)
    requires Clean(token)
    ensures ',' !in token && Item(token) == [token]
  {
    TrimClean(token);
  }

  // ---------- The items, read off the string ----------

  predicate White(c: char) {
    c == ' ' || c == '\t' || c == '\n' || c == 11 as char || c == 12 as char || c == '\r'
  }

  /** The string between two positions, with only whitespace outside, and none at its ends. */
  predicate Between(s: string, i: nat, j: nat) {
    && i <= j <= |s|
    && (forall k :: 0 <= k < i ==> White(s[k])) && (forall k :: j <= k < |s| ==> White(s[k]))
    && (i < j ==> !White(s[i]) && !White(s[j - 1]))
  }

  lemma SameSpace(c: char)
    ensures White(c) == IsSpace(c)
  {
  }

  lemma {:induction false} TrimmedLeft(s: string)
    ensures forall k :: 0 <= k < |s| - |TrimLeft(s)| ==> White(s[k])
    decreases |s|
  {
    hide White, IsSpace;
    if s != "" && IsSpace(s[0]) {
      TrimmedLeft(s[1..]);
      SameSpace(s[0]);
      forall k | 0 <= k < |s| - |TrimLeft(s)| ensures White(s[k]) {
        if k > 0 {
          assert s[k] == s[1..][k - 1];
        }
      }
    }
  }

  lemma {:induction false} TrimmedRight(s: string)
    ensures forall k :: |TrimRight(s)| <= k < |s| ==> White(s[k])
    decreases |s|
  {
    hide White, IsSpace;
    if s != "" && IsSpace(s[|s| - 1]) {
      TrimmedRight(s[..|s| - 1]);
      SameSpace(s[|s| - 1]);
      forall k | |TrimRight(s)| <= k < |s| ensures White(s[k]) {
        if k < |s| - 1 {
          assert s[k] == s[..|s| - 1][k];
        }
      }
    }
  }

  lemma TrimBetween(s: string) returns (i: nat, j: nat)
    ensures Between(s, i, j) && Trim(s) == s[i..j]
  {
    hide White, IsSpace, TrimLeft, TrimRight;
    var left := TrimLeft(s);
    var item := TrimRight(left);
    TrimmedLeft(s);
    TrimmedRight(left);
    i := |s| - |left|;
    j := i + |item|;
    assert forall k :: i <= k < |s| ==> s[k] == left[k - i];
    forall k | j <= k < |s| ensures White(s[k]) {
      assert White(left[k - i]);
    }
    if i < j {
      assert s[i] == item[0] && s[j - 1] == item[|item| - 1];
      SameSpace(s[i]);
      SameSpace(s[j - 1]);
    }
  }

  /** A piece without a comma is one item, without the whitespace around it, or none. */
  lemma ItemOfPiece(piece: string) returns (i: nat, j: nat)
    requires ',' !in piece
    ensures Between(piece, i, j) && Tokens(piece) == if i < j then [piece[i..j]] else []
  {
    TokensOfPiece(piece);
    hide Tokens, Between, Trim;
    i, j := TrimBetween(piece);
    BetweenInOrder(piece, i, j);
  }

  lemma BetweenInOrder(s: string, i: nat, j: nat)
    requires Between(s, i, j)
    ensures i <= j <= |s|
  {
  }

  /** A comma separates the items before it from those after it. */
  lemma {:induction false} CommaSeparates(a: string, b: string)
    ensures Tokens(a + "," + b) == Tokens(a) + Tokens(b)
    decreases |a|
  {
    hide Item, Tokens, FindComma;
    var n := FindComma(a);
    if n == |a| {
      assert a[..n] == a;
      TokensOfPiece(a);
      TokensCons(a, b);
    } else {
      var piece, rest := a[..n], a[n + 1..];
      assert a == piece + "," + rest;
      assert a + "," + b == piece + "," + (rest + "," + b);
      CommaSeparates(rest, b);
      TokensCons(piece, rest);
      TokensCons(piece, rest + "," + b);
    }
  }
}
