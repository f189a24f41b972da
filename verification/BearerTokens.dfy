/** The authorization header: which texts carry which token. */
module BearerTokens {
  import opened Data
  import opened Mailbox

  predicate Blank(s: string) {
    forall i | 0 <= i < |s| :: s[i] == ' ' || s[i] == '\t'
  }

  predicate OneWord(s: string) {
    s != "" && forall i | 0 <= i < |s| :: s[i] != ' ' && s[i] != '\t'
  }

  /** The text after a word: nothing, or blank at its start. */
  predicate Separated(s: string) {
    s == "" || s[0] == ' ' || s[0] == '\t'
  }

  lemma {:induction false} WordEnds(word: string, rest: string)
    requires OneWord(word) && Separated(rest)
    ensures WordLength(word + rest) == |word|
  {
    if |word| == 1 {
      assert (word + rest)[1..] == rest;
    } else {
      assert OneWord(word[1..]) && (word + rest)[1..] == word[1..] + rest;
      WordEnds(word[1..], rest);
    }
  }

  lemma {:induction false} WordsAfterBlank(before: string, s: string)
    requires Blank(before)
    ensures Words(before + s) == Words(s)
  {
    if before == "" {
      assert before + s == s;
    } else {
      assert (before + s)[1..] == before[1..] + s;
      WordsAfterBlank(before[1..], s);
    }
  }

  lemma NoWords(s: string)
    requires Blank(s)
    ensures Words(s) == []
  {
    WordsAfterBlank(s, "");
    assert s + "" == s;
  }

  lemma FirstWord(before: string, word: string, rest: string)
    requires Blank(before) && OneWord(word) && Separated(rest)
    ensures Words(before + (word + rest)) == [word] + Words(rest)
  {
    var s := word + rest;
    WordsAfterBlank(before, s);
    WordEnds(word, rest);
    assert s[..|word|] == word && s[|word|..] == rest;
  }

  lemma {:induction false} WordTaken(s: string)
    requires s != "" && !IsSpace(s[0])
    ensures OneWord(s[..WordLength(s)]) && Separated(s[WordLength(s)..])
  {
    var n := WordLength(s);
    if |s| == 1 || IsSpace(s[1]) {
      assert n == 1;
    } else {
      WordTaken(s[1..]);
      assert s[..n] == [s[0]] + s[1..][..n - 1] && s[n..] == s[1..][n - 1..];
    }
  }

  /** A text with words starts with blanks, the first word and what follows it. */
  lemma {:induction false} SplitFirst(s: string) returns (before: string, rest: string)
    requires Words(s) != []
    ensures Blank(before) && Separated(rest) && OneWord(Words(s)[0])
    ensures s == before + (Words(s)[0] + rest) && Words(rest) == Words(s)[1..]
    decreases |s|
  {
    if IsSpace(s[0]) {
      before, rest := SplitFirst(s[1..]);
      before := [s[0]] + before;
    } else {
      WordTaken(s);
      before, rest := "", s[WordLength(s)..];
    }
  }

  lemma {:induction false} WordlessIsBlank(s: string)
    requires Words(s) == []
    ensures Blank(s)
    decreases |s|
  {
    if s == "" {
    } else {
      assert IsSpace(s[0]);
      WordlessIsBlank(s[1..]);
    }
  }

  /** Any mixture of small and capital letters. */
  predicate IsBearer(scheme: string) {
    |scheme| == 6 && forall i | 0 <= i < 6 :: scheme[i] == "bearer"[i] || scheme[i] == "BEARER"[i]
  }

  lemma LowerIsBearer(scheme: string)
    ensures Lower(scheme) == "bearer" <==> IsBearer(scheme)
  {
    if Lower(scheme) == "bearer" {
      forall i | 0 <= i < 6 ensures scheme[i] == "bearer"[i] || scheme[i] == "BEARER"[i] {
        assert Lower(scheme)[i] == "bearer"[i];
      }
    }
    if IsBearer(scheme) {
      forall i | 0 <= i < 6 ensures Lower(scheme)[i] == "bearer"[i] {
        assert scheme[i] == "bearer"[i] || scheme[i] == "BEARER"[i];
      }
    }
  }

  /** The scheme and the token, with blanks or tabs between them and anywhere around them. */
  ghost predicate HeaderCarries(header: string, token: string) {
    exists before: string, scheme: string, between: string, after: string ::
      && header == before + (scheme + (between + (token + after)))
      && Blank(before) && IsBearer(scheme) && between != "" && Blank(between) && OneWord(token) && Blank(after)
  }

  lemma CarriedIsRead(header: string, token: string)
    requires HeaderCarries(header, token)
    ensures BearerToken(Some(header)) == Ok(token)
  {
    var before, scheme, between, after :|
      && header == before + (scheme + (between + (token + after)))
      && Blank(before) && IsBearer(scheme) && between != "" && Blank(between) && OneWord(token) && Blank(after);
    LowerIsBearer(scheme);
    SchemeIsWord(scheme);
    var rest := between + (token + after);
    assert rest[0] == between[0];
    FirstWord(before, scheme, rest);
    FirstWord(between, token, after);
    NoWords(after);
  }

  lemma SchemeIsWord(scheme: string)
    requires IsBearer(scheme)
    ensures OneWord(scheme)
  {
    forall i | 0 <= i < |scheme| ensures scheme[i] != ' ' && scheme[i] != '\t' {
      assert scheme[i] == "bearer"[i] || scheme[i] == "BEARER"[i];
    }
  }

  lemma ReadIsCarried(header: string, token: string)
    requires BearerToken(Some(header)) == Ok(token)
    ensures HeaderCarries(header, token)
  {
    var before, rest := SplitFirst(header);
    var between, after := SplitFirst(rest);
    WordlessIsBlank(after);
    LowerIsBearer(Words(header)[0]);
    assert between != "" by {
      assert rest == between + (token + after);
    }
  }

  /** A header carries a token exactly when it has this shape. */
  lemma BearerExactly(auth: Option<string>, token: string)
    ensures BearerToken(auth) == Ok(token) <==> auth.Some? && HeaderCarries(auth.value, token)
  {
    if auth.Some? && HeaderCarries(auth.value, token) {
      CarriedIsRead(auth.value, token);
    }
    if BearerToken(auth) == Ok(token) {
      ReadIsCarried(auth.value, token);
    }
  }
}
