/**
 What the HTTP transport does with a request, read off the request itself character by character, and
 which connections are open.
 */
module HttpGate {
  import opened Wrappers
  import opened Values
  import opened HttpTransport
  import CommaLists

  // ---------- Letters of either case ----------

  /** The string is spelled as given, each letter in lower or upper case. */
  predicate Spells(s: string, lower: string, upper: string)
    requires |lower| == |upper|
  {
    |s| == |lower| && forall i :: 0 <= i < |s| ==> s[i] == lower[i] || s[i] == upper[i]
  }

  predicate Cases(lower: string, upper: string) {
    |lower| == |upper| &&
    forall i :: 0 <= i < |lower| ==>
      if 'a' <= lower[i] <= 'z' then upper[i] as int == lower[i] as int - 32
      else upper[i] == lower[i] && !('A' <= lower[i] <= 'Z')
  }

  lemma SpelledIgnoringCase(s: string, t: string, lower: string, upper: string)
    requires Cases(lower, upper) && Spells(t, lower, upper)
    ensures EqualsIgnoringCase(s, t) <==> Spells(s, lower, upper)
  {
    if EqualsIgnoringCase(s, t) {
      assert |Lower(s)| == |Lower(t)|;
      forall i | 0 <= i < |s| ensures s[i] == lower[i] || s[i] == upper[i] {
        assert Lower(s)[i] == Lower(t)[i];
      }
    }
  }

  lemma Literals()
    ensures Cases("bearer ", "BEARER ") && Cases("localhost", "LOCALHOST")
  {
  }

  lemma MediaLiterals()
    ensures Cases("application/json", "APPLICATION/JSON") && Cases("*/*", "*/*")
    ensures Cases("application/*", "APPLICATION/*")
  {
  }

  // ---------- The headers ----------

  /** Seven characters that spell "Bearer ", and then exactly the token. */
  predicate CarriesToken(authorization: string, token: string) {
    && |authorization| == 7 + |token| && authorization[7..] == token
    && Spells(authorization[..7], "bearer ", "BEARER ")
  }

  predicate FromLoopback(origin: OriginHeader) {
    origin.OriginUrl? ==>
      && origin.valid
      && (origin.host == "127.0.0.1" || origin.host == "::1" || Spells(origin.host, "localhost", "LOCALHOST"))
  }

  predicate Blank(c: char) {
    c == ' ' || c == '\t'
  }

  /** The part between two positions with the blanks around it dropped. */
  predicate Strips(item: string, n: nat, i: nat, j: nat) {
    && i <= j <= n <= |item|
    && (forall k :: 0 <= k < i ==> Blank(item[k])) && (forall k :: j <= k < n ==> Blank(item[k]))
    && (i < j ==> !Blank(item[i]) && !Blank(item[j - 1]))
  }

  /** The media type of an item: the item itself, or what stands before its parameters, without blanks. */
  ghost predicate HasMedia(item: string, media: string) {
    if ';' !in item then media == item
    else
      exists n: nat, i: nat, j: nat ::
        Strips(item, n, i, j) && n < |item| && item[n] == ';' && ';' !in item[..n] && media == item[i..j]
  }

  predicate NamesJson(media: string) {
    || Spells(media, "application/json", "APPLICATION/JSON")
    || media == "*/*"
    || Spells(media, "application/*", "APPLICATION/*")
  }

  /** Some item of the header has a media type that covers JSON. */
  ghost predicate TakesJson(accept: string) {
    exists k, media :: 0 <= k < |CommaLists.Tokens(accept)| && HasMedia(CommaLists.Tokens(accept)[k], media) &&
      NamesJson(media)
  }

  // ---------- Why the program's own tests mean this ----------

  lemma TokenTest(info: RequestInfo, token: string)
    ensures IsAuthorized(info, token) <==> CarriesToken(info.authorization, token)
  {
    hide EqualsIgnoringCase, Spells;
    Literals();
    BearerSpelled();
    if |info.authorization| >= 7 {
      SpelledIgnoringCase(info.authorization[..7], BEARER_PREFIX, "bearer ", "BEARER ");
    }
  }

  lemma BearerSpelled()
    ensures Spells(BEARER_PREFIX, "bearer ", "BEARER ") && |BEARER_PREFIX| == 7
  {
  }

  lemma OriginTest(info: RequestInfo)
    ensures IsAllowedOrigin(info) <==> FromLoopback(info.origin)
  {
    hide EqualsIgnoringCase;
    Literals();
    if info.origin.OriginUrl? {
      SpelledIgnoringCase(info.origin.host, "localhost", "localhost", "LOCALHOST");
    }
  }

  lemma {:induction false} BeforeSemicolon(item: string)
    ensures BeforeParameters(item) <= item && ';' !in BeforeParameters(item)
    ensures var n := |BeforeParameters(item)|; n < |item| ==> item[n] == ';'
    decreases |item|
  {
    if item != "" && item[0] != ';' {
      BeforeSemicolon(item[1..]);
      assert item == [item[0]] + item[1..];
    }
  }

  lemma {:induction false} BlanksLeft(s: string)
    ensures var r := TrimBlanksLeft(s);
            && |r| <= |s| && r == s[|s| - |r|..] && (r != "" ==> !Blank(r[0]))
            && forall k :: 0 <= k < |s| - |r| ==> Blank(s[k])
    decreases |s|
  {
    if s != "" && Blank(s[0]) {
      BlanksLeft(s[1..]);
      var r := TrimBlanksLeft(s);
      forall k | 0 <= k < |s| - |r| ensures Blank(s[k]) {
        if k > 0 {
          assert s[k] == s[1..][k - 1];
        }
      }
    }
  }

  lemma {:induction false} BlanksRight(s: string)
    ensures var r := TrimBlanksRight(s);
            && |r| <= |s| && r == s[..|r|] && (r != "" ==> !Blank(r[|r| - 1]))
            && forall k :: |r| <= k < |s| ==> Blank(s[k])
    decreases |s|
  {
    if s != "" && Blank(s[|s| - 1]) {
      BlanksRight(s[..|s| - 1]);
      var r := TrimBlanksRight(s);
      forall k | |r| <= k < |s| ensures Blank(s[k]) {
        if k < |s| - 1 {
          assert s[k] == s[..|s| - 1][k];
        }
      }
    }
  }

  lemma BothTrims(s: string) returns (i: nat, j: nat)
    ensures Strips(s, |s|, i, j) && TrimBlanksRight(TrimBlanksLeft(s)) == s[i..j]
  {
    hide TrimBlanksLeft, TrimBlanksRight, Blank;
    var left := TrimBlanksLeft(s);
    var media := TrimBlanksRight(left);
    BlanksLeft(s);
    BlanksRight(left);
    i := |s| - |left|;
    j := i + |media|;
    assert forall k :: i <= k < |s| ==> s[k] == left[k - i];
    forall k | j <= k < |s| ensures Blank(s[k]) {
      assert Blank(left[k - i]);
    }
    if i < j {
      assert s[i] == media[0] && s[j - 1] == media[|media| - 1];
    }
  }

  lemma StripsPrefix(item: string, n: nat, i: nat, j: nat)
    requires n <= |item| && Strips(item[..n], n, i, j)
    ensures Strips(item, n, i, j) && item[i..j] == item[..n][i..j]
  {
    hide Blank;
    assert forall k :: 0 <= k < n ==> item[..n][k] == item[k];
  }

  /** The media type that the program takes is one that the item has. */
  lemma MediaTaken(item: string)
    ensures HasMedia(item, MediaType(item))
  {
    hide BeforeParameters, TrimBlanksLeft, TrimBlanksRight, Strips;
    if ';' in item {
      BeforeSemicolon(item);
      var before := BeforeParameters(item);
      var n := |before|;
      assert n == |item| ==> before == item;
      assert item[..n] == before;
      var i, j := BothTrims(before);
      StripsPrefix(item, n, i, j);
      StripsInOrder(item, n, i, j);
    }
  }

  lemma StripsInOrder(item: string, n: nat, i: nat, j: nat)
    requires Strips(item, n, i, j)
    ensures i <= j <= n <= |item|
  {
  }

  /** And it has no other. */
  lemma MediaUnique(item: string, media: string, media': string)
    requires HasMedia(item, media) && HasMedia(item, media')
    ensures media == media'
  {
    if ';' in item {
      var n: nat, i: nat, j: nat :|
        Strips(item, n, i, j) && n < |item| && item[n] == ';' && ';' !in item[..n] && media == item[i..j];
      var n': nat, i': nat, j': nat :|
        Strips(item, n', i', j') && n' < |item| && item[n'] == ';' && ';' !in item[..n'] && media' == item[i'..j'];
      FirstSemicolon(item, n, n');
      SameStrip(item, n, i, j, i', j');
    }
  }

  lemma FirstSemicolon(item: string, n: nat, n': nat)
    requires n < |item| && item[n] == ';' && ';' !in item[..n]
    requires n' < |item| && item[n'] == ';' && ';' !in item[..n']
    ensures n == n'
  {
    assert forall k :: 0 <= k < n ==> item[..n][k] == item[k];
    assert forall k :: 0 <= k < n' ==> item[..n'][k] == item[k];
  }

  lemma SameStrip(item: string, n: nat, i: nat, j: nat, i': nat, j': nat)
    requires Strips(item, n, i, j) && Strips(item, n, i', j')
    ensures item[i..j] == item[i'..j']
  {
    hide Blank;
    assert i < j && i' < j' ==> i == i' && j == j';
  }

  lemma MatchesNames(item: string)
    ensures MatchesMimeType(item, "application/json") <==> NamesJson(MediaType(item))
  {
    hide EqualsIgnoringCase, MediaType;
    MediaLiterals();
    SpelledIgnoringCase(MediaType(item), "application/json", "application/json", "APPLICATION/JSON");
    SpelledIgnoringCase(MediaType(item), "*/*", "*/*", "*/*");
    SpelledIgnoringCase(MediaType(item), "application/*", "application/*", "APPLICATION/*");
  }

  lemma AcceptTest(info: RequestInfo)
    ensures AcceptsJson(info) <==> TakesJson(info.accept)
  {
    hide CommaLists.Tokens, HasMedia, MatchesMimeType, NamesJson;
    var items := CommaLists.Tokens(info.accept);
    forall k | 0 <= k < |items|
      ensures HasMedia(items[k], MediaType(items[k]))
      ensures MatchesMimeType(items[k], "application/json") <==> NamesJson(MediaType(items[k]))
      ensures forall media :: HasMedia(items[k], media) ==> media == MediaType(items[k])
    {
      MediaTaken(items[k]);
      MatchesNames(items[k]);
      forall media | HasMedia(items[k], media) ensures media == MediaType(items[k]) {
        MediaUnique(items[k], media, MediaType(items[k]));
      }
    }
  }

  // ---------- The fate of a request ----------

  datatype Fate = Refused(status: nat, body: string) | Taken(message: Dictionary)

  ghost function FateOf(info: RequestInfo, token: string, read: Reader): Fate {
    if info.path != "/mcp" then Refused(404, "Not Found")
    else if !FromLoopback(info.origin) then Refused(403, "Forbidden")
    else if !CarriesToken(info.authorization, token) then Refused(401, "Unauthorized")
    else if info.verb != "POST" then Refused(405, "Method Not Allowed")
    else if !TakesJson(info.accept) then Refused(406, "Not Acceptable")
    else if read(info.data).None? then Refused(400, "Invalid JSON")
    else Taken(read(info.data).value)
  }

  lemma JudgedSo(info: RequestInfo, token: string, read: Reader)
    ensures match FateOf(info, token, read)
            case Refused(status, body) =>
              Judge(info, token, read) == Reject(status) && RejectionBody(status) == body
            case Taken(message) => Judge(info, token, read) == Forward(message)
  {
    hide FromLoopback, CarriesToken, TakesJson, IsAllowedOrigin, IsAuthorized, AcceptsJson;
    OriginTest(info);
    TokenTest(info, token);
    AcceptTest(info);
  }
}
