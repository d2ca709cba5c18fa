/** Client construction: the API key is trimmed of surrounding white space
    and a key that is blank after trimming is refused. */
module Client {
  import opened Wrappers

  datatype Client = Client(apiKey: string)

  datatype ClientError = BlankAPIKey

  /** White space as Go's `unicode.IsSpace` defines it: the ASCII tab, line
      feed, vertical tab, form feed, carriage return and space, U+0085 and
      U+00A0, and the Unicode White_Space characters above Latin-1. */
  predicate IsSpace(c: char)
  {
    || c == '\t' || c == '\n' || c == '\U{000B}' || c == '\U{000C}' || c == '\r' || c == ' '
    || c == '\U{0085}' || c == '\U{00A0}' || c == '\U{1680}'
    || ('\U{2000}' <= c <= '\U{200A}')
    || c == '\U{2028}' || c == '\U{2029}' || c == '\U{202F}' || c == '\U{205F}' || c == '\U{3000}'
  }

  predicate AllSpace(s: string)
  {
    forall i :: 0 <= i < |s| ==> IsSpace(s[i])
  }

  /** `s` splits into white space, then `r`, then white space, with `r`
      starting at index `i`. */
  predicate TrimmedFrom(s: string, r: string, i: int)
  {
    && 0 <= i <= i + |r| <= |s|
    && s[i..i + |r|] == r
    && AllSpace(s[..i])
    && AllSpace(s[i + |r|..])
  }

  /** Number of white-space characters at the front of `s`. */
  function LeadingSpace(s: string): (n: nat)
    ensures n <= |s|
    ensures AllSpace(s[..n])
    ensures n < |s| ==> !IsSpace(s[n])
  {
    if |s| == 0 || !IsSpace(s[0]) then 0
    else
      var m := LeadingSpace(s[1..]);
      assert s[1..][..m] == s[1..m + 1];
      1 + m
  }

  /** Number of white-space characters at the end of `s`. */
  function TrailingSpace(s: string): (n: nat)
    ensures n <= |s|
    ensures AllSpace(s[|s| - n..])
    ensures n < |s| ==> !IsSpace(s[|s| - n - 1])
  {
    if |s| == 0 || !IsSpace(s[|s| - 1]) then 0
    else
      var m := TrailingSpace(s[..|s| - 1]);
      assert s[..|s| - 1][|s| - 1 - m..] == s[|s| - 1 - m..|s| - 1];
      1 + m
  }

  /** Go's `strings.TrimSpace`: `s` without its leading and trailing white
      space. */
  function TrimSpace(s: string): (r: string)
    ensures |r| <= |s|
    ensures exists i :: TrimmedFrom(s, r, i)
    ensures |r| > 0 ==> !IsSpace(r[0]) && !IsSpace(r[|r| - 1])
  {
    var lead := LeadingSpace(s);
    if lead == |s| then
      assert TrimmedFrom(s, [], |s|);
      []
    else
      var trail := TrailingSpace(s[lead..]);
      var r := s[lead..|s| - trail];
      assert s[lead..][|s[lead..]| - trail..] == s[|s| - trail..];
      assert s[lead..lead + |r|] == r;
      assert TrimmedFrom(s, r, lead);
      r
  }

  /** Trimming removes nothing but white space, and leaves the empty string
      exactly when there was nothing else. */
  lemma TrimSpaceEmptyIffBlank(s: string)
    ensures TrimSpace(s) == [] <==> AllSpace(s)
  {
    var r := TrimSpace(s);
    var i :| TrimmedFrom(s, r, i);
    if r == [] {
      forall k | 0 <= k < |s|
        ensures IsSpace(s[k])
      {
        if k < i {
          assert s[..i][k] == s[k];
        } else {
          assert s[i..][k - i] == s[k];
        }
      }
    } else {
      assert s[i..i + |r|][0] == s[i];
      assert !IsSpace(s[i]);
    }
  }

  /** Trimming twice is trimming once. */
  lemma TrimSpaceIdempotent(s: string)
    ensures TrimSpace(TrimSpace(s)) == TrimSpace(s)
  {
    var r := TrimSpace(s);
    if |r| > 0 {
      assert LeadingSpace(r) == 0;
      assert TrailingSpace(r) == 0;
      assert r[0..|r|] == r;
    }
  }

  /** `NewClient`: the trimmed key, or `BlankAPIKey` when nothing but white
      space was given. */
  function NewClient(apiKey: string): (r: Result<Client, ClientError>)
    ensures r.Failure? <==> AllSpace(apiKey)
    ensures r.Failure? ==> r.error == BlankAPIKey
    ensures r.Success? ==> exists i :: TrimmedFrom(apiKey, r.value.apiKey, i)
    ensures r.Success? ==> |r.value.apiKey| > 0
    ensures r.Success? ==> !IsSpace(r.value.apiKey[0]) && !IsSpace(r.value.apiKey[|r.value.apiKey| - 1])
  {
    var key := TrimSpace(apiKey);
    TrimSpaceEmptyIffBlank(apiKey);
    if key == [] then Failure(BlankAPIKey) else Success(Client(key))
  }
}
