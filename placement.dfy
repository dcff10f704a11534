/** The queue of god-gift monsters placed once the player's turn ends:
    delayed_monster, delayed_monster_done and _place_delayed_monsters.
    create_monster is an input (`created(i)` says whether the i-th request
    produced a monster); callbacks and god speech become events. */
module Placement {
  import opened Gods

  /** The part of an mgen_data the queue reads: the god it is for, and an
      identity that stands for the rest of the record. */
  datatype Request = Request(god: God, id: nat)

  /** A delayed_callback, possibly null. */
  datatype Callback = NoCallback | Callback(id: nat)

  /** What _place_delayed_monsters does that a caller can observe, in order:
      a request's callback (with the count placed so far), the god
      speaking a batch's message, and the batch's done callback. */
  datatype Event =
    | RequestCallback(cb: nat, at: nat, placed: nat)
    | Speech(god: God, msg: string)
    | DoneCallback(cb: nat, at: nat, placed: nat)

  // ------------------------------------------------------------ messages

  /** Does `find` start at position i of s? */
  predicate OccursAt(s: string, find: string, i: nat)
  {
    i + |find| <= |s| && s[i..i + |find|] == find
  }

  /** replace_all(s, find, repl): every occurrence of find, left to right,
      replaced by repl, the search going on after each replaced one. */
  function ReplaceAll(s: string, find: string, repl: string): string
    requires |find| > 0
    decreases |s|
  {
    if |s| < |find| then s
    else if s[..|find|] == find then repl + ReplaceAll(s[|find|..], find, repl)
    else [s[0]] + ReplaceAll(s[1..], find, repl)
  }

  /** A message without any occurrence of find is left alone. */
  lemma {:induction false} ReplaceAllAbsent(s: string, find: string, repl: string)
    requires |find| > 0 && forall i :: 0 <= i <= |s| ==> !OccursAt(s, find, i)
    ensures ReplaceAll(s, find, repl) == s
    decreases |s|
  {
    if |s| >= |find| {
      assert !OccursAt(s, find, 0);
      forall i | 0 <= i <= |s[1..]|
        ensures !OccursAt(s[1..], find, i)
      {
        assert !OccursAt(s, find, i + 1);
        if i + |find| <= |s[1..]| {
          assert s[1..][i..i + |find|] == s[i + 1..i + 1 + |find|];
        }
      }
      ReplaceAllAbsent(s[1..], find, repl);
    }
  }

  /** A message with no '@' holds none of the tokens. */
  lemma NoAtNoToken(s: string, find: string)
    requires |find| > 0 && find[0] == '@' && '@' !in s
    ensures forall i :: 0 <= i <= |s| ==> !OccursAt(s, find, i)
  {
    forall i | 0 <= i <= |s|
      ensures !OccursAt(s, find, i)
    {
      if i + |find| <= |s| {
        assert s[i..i + |find|][0] == s[i];
      }
    }
  }

  /** A token after the first character, so that removing " @a@" and
      friends can be stated too. */
  lemma NoAtNoSpacedToken(s: string, find: string)
    requires |find| > 1 && find[1] == '@' && '@' !in s
    ensures forall i :: 0 <= i <= |s| ==> !OccursAt(s, find, i)
  {
    forall i | 0 <= i <= |s|
      ensures !OccursAt(s, find, i)
    {
      if i + |find| <= |s| {
        assert s[i..i + |find|][1] == s[i + 1];
      }
    }
  }

  /** The pluralisation of a batch message by the number placed: for one
      monster "@a@" and "@an@" become "a" and "an" and "@s@" goes; for any
      other count " @a@" and " @an@" go and "@s@" becomes "s". */
  function Pluralise(msg: string, placed: nat): string
  {
    if placed == 1 then
      ReplaceAll(ReplaceAll(ReplaceAll(msg, "@a@", "a"), "@an@", "an"), "@s@", "")
    else
      ReplaceAll(ReplaceAll(ReplaceAll(msg, " @a@", ""), " @an@", ""), "@s@", "s")
  }

  /** A message without tokens is spoken as it stands. */
  lemma PluraliseWithoutTokens(msg: string, placed: nat)
    requires '@' !in msg
    ensures Pluralise(msg, placed) == msg
  {
    if placed == 1 {
      NoAtNoToken(msg, "@a@");
      ReplaceAllAbsent(msg, "@a@", "a");
      NoAtNoToken(msg, "@an@");
      ReplaceAllAbsent(msg, "@an@", "an");
      NoAtNoToken(msg, "@s@");
      ReplaceAllAbsent(msg, "@s@", "");
    } else {
      NoAtNoSpacedToken(msg, " @a@");
      ReplaceAllAbsent(msg, " @a@", "");
      NoAtNoSpacedToken(msg, " @an@");
      ReplaceAllAbsent(msg, " @an@", "");
      NoAtNoToken(msg, "@s@");
      ReplaceAllAbsent(msg, "@s@", "s");
    }
  }

  /** Text before the first occurrence's first character passes through. */
  lemma {:induction false} ReplaceAllPlainPrefix(p: string, t: string, find: string, repl: string)
    requires |find| > 0 && find[0] !in p
    ensures ReplaceAll(p + t, find, repl) == p + ReplaceAll(t, find, repl)
    decreases |p|
  {
    if |p| > 0 {
      var s := p + t;
      if |s| >= |find| {
        assert s[..|find|][0] == p[0];
        assert s[1..] == p[1..] + t;
        ReplaceAllPlainPrefix(p[1..], t, find, repl);
        assert p == [p[0]] + p[1..];
      } else {
        assert ReplaceAll(t, find, repl) == t;
      }
    } else {
      assert p + t == t;
    }
  }

  /** The same for a token whose '@' is its second character (" @a@"),
      provided what follows the text does not start with '@'. */
  lemma {:induction false} ReplaceAllQuietPrefix(p: string, t: string, find: string, repl: string)
    requires |find| > 1 && find[1] == '@' && '@' !in p && (|t| > 0 ==> t[0] != '@')
    ensures ReplaceAll(p + t, find, repl) == p + ReplaceAll(t, find, repl)
    decreases |p|
  {
    if |p| > 0 {
      var s := p + t;
      if |s| >= |find| {
        assert s[..|find|][1] == s[1];
        assert s[1] == if |p| > 1 then p[1] else t[0];
        assert s[1..] == p[1..] + t;
        ReplaceAllQuietPrefix(p[1..], t, find, repl);
        assert p == [p[0]] + p[1..];
      } else {
        assert ReplaceAll(t, find, repl) == t;
      }
    } else {
      assert p + t == t;
    }
  }

  /** A text that starts with the token has it replaced first. */
  lemma ReplaceAllLeading(find: string, t: string, repl: string)
    requires |find| > 0
    ensures ReplaceAll(find + t, find, repl) == repl + ReplaceAll(t, find, repl)
  {
    var s := find + t;
    assert s[..|find|] == find;
    assert s[|find|..] == t;
  }

  /** A text with no '@' is left alone by every token replacement. */
  lemma ReplaceAllPlain(s: string, find: string, repl: string)
    requires |find| > 1 && (find[0] == '@' || find[1] == '@') && '@' !in s
    ensures ReplaceAll(s, find, repl) == s
  {
    if find[0] == '@' { NoAtNoToken(s, find); } else { NoAtNoSpacedToken(s, find); }
    ReplaceAllAbsent(s, find, repl);
  }

  lemma PluralArticleAOne(pre: string, noun: string)
    requires '@' !in pre && '@' !in noun
    ensures Pluralise(pre + " @a@ " + noun, 1) == pre + " a " + noun
  {
    var rest := " " + noun;
    assert '@' !in rest;
    var m := pre + " @a@ " + noun;
    assert m == (pre + " ") + ("@a@" + rest);
    ReplaceAllPlainPrefix(pre + " ", "@a@" + rest, "@a@", "a");
    ReplaceAllLeading("@a@", rest, "a");
    ReplaceAllPlain(rest, "@a@", "a");
    var s1 := pre + " a " + noun;
    assert ReplaceAll(m, "@a@", "a") == s1;
    assert '@' !in s1;
    ReplaceAllPlain(s1, "@an@", "an");
    ReplaceAllPlain(s1, "@s@", "");
  }

  lemma PluralArticleAMany(pre: string, noun: string, placed: nat)
    requires '@' !in pre && '@' !in noun
    requires placed != 1
    ensures Pluralise(pre + " @a@ " + noun, placed) == pre + " " + noun
  {
    var rest := " " + noun;
    assert '@' !in rest;
    var m := pre + " @a@ " + noun;
    assert m == pre + (" @a@" + rest);
    ReplaceAllQuietPrefix(pre, " @a@" + rest, " @a@", "");
    ReplaceAllLeading(" @a@", rest, "");
    ReplaceAllPlain(rest, " @a@", "");
    var s1 := pre + " " + noun;
    assert ReplaceAll(m, " @a@", "") == s1;
    assert '@' !in s1;
    ReplaceAllPlain(s1, " @an@", "");
    ReplaceAllPlain(s1, "@s@", "s");
  }

  /** The article "@a@" before a noun: "a" for one monster, dropped with
      its space for any other count. */
  lemma PluralArticleA(pre: string, noun: string, placed: nat)
    requires '@' !in pre && '@' !in noun
    ensures Pluralise(pre + " @a@ " + noun, placed) == pre + (if placed == 1 then " a " else " ") + noun
  {
    if placed == 1 { PluralArticleAOne(pre, noun); } else { PluralArticleAMany(pre, noun, placed); }
  }

  /** The article "@an@" holds no "@a@" and no " @a@". */
  lemma AnHidesA(pre: string, noun: string)
    requires '@' !in pre && '@' !in noun
    ensures var m := pre + " @an@ " + noun;
            forall i :: 0 <= i <= |m| ==> !OccursAt(m, "@a@", i) && !OccursAt(m, " @a@", i)
  {
    var m := pre + " @an@ " + noun;
    var n := |pre|;
    assert m[n + 1] == '@' && m[n + 2] == 'a' && m[n + 3] == 'n' && m[n + 4] == '@' && m[n + 5] == ' ';
    assert forall j :: 0 <= j < |m| && j != n + 1 && j != n + 4 ==> m[j] != '@';
    forall i | 0 <= i <= |m|
      ensures !OccursAt(m, "@a@", i) && !OccursAt(m, " @a@", i)
    {
      if i + 3 <= |m| {
        var w := m[i..i + 3];
        assert w[0] == m[i] && w[1] == m[i + 1] && w[2] == m[i + 2];
        assert w != "@a@";
      }
      if i + 4 <= |m| {
        var w := m[i..i + 4];
        assert w[1] == m[i + 1] && w[2] == m[i + 2] && w[3] == m[i + 3];
        assert w != " @a@";
      }
    }
  }

  /** The "@a@" replacements leave a message with "@an@" alone. */
  lemma ATokensSkipPlainAn(pre: string, noun: string, find: string, repl: string)
    requires '@' !in pre && '@' !in noun
    requires find == "@a@" || find == " @a@"
    ensures ReplaceAll(pre + " @an@ " + noun, find, repl) == pre + " @an@ " + noun
  {
    AnHidesA(pre, noun);
    ReplaceAllAbsent(pre + " @an@ " + noun, find, repl);
  }

  lemma PluralArticleAnOne(pre: string, noun: string)
    requires '@' !in pre && '@' !in noun
    ensures Pluralise(pre + " @an@ " + noun, 1) == pre + " an " + noun
  {
    var rest := " " + noun;
    var m := pre + " @an@ " + noun;
    var s2 := pre + " an " + noun;
    ATokensSkipPlainAn(pre, noun, "@a@", "a");
    assert ReplaceAll(m, "@a@", "a") == m;
    AnReplaced(pre, noun);
    assert ReplaceAll(m, "@an@", "an") == s2;
    ReplaceAllPlain(s2, "@s@", "");
  }

  /** The "@an@" replacement on a plain article message. */
  lemma AnReplaced(pre: string, noun: string)
    requires '@' !in pre && '@' !in noun
    ensures ReplaceAll(pre + " @an@ " + noun, "@an@", "an") == pre + " an " + noun
  {
    var rest := " " + noun;
    ReplaceAllPlain(rest, "@an@", "an");
    TokenReplaced(pre + " ", "@an@", rest, "an");
    assert pre + " @an@ " + noun == (pre + " ") + ("@an@" + rest);
    assert (pre + " ") + ("an" + rest) == pre + " an " + noun;
  }

  lemma PluralArticleAnMany(pre: string, noun: string, placed: nat)
    requires '@' !in pre && '@' !in noun
    requires placed != 1
    ensures Pluralise(pre + " @an@ " + noun, placed) == pre + " " + noun
  {
    var rest := " " + noun;
    assert '@' !in rest;
    var m := pre + " @an@ " + noun;
    ATokensSkipPlainAn(pre, noun, " @a@", "");
    assert m == pre + (" @an@" + rest);
    ReplaceAllQuietPrefix(pre, " @an@" + rest, " @an@", "");
    ReplaceAllLeading(" @an@", rest, "");
    ReplaceAllPlain(rest, " @an@", "");
    var s2 := pre + " " + noun;
    assert ReplaceAll(m, " @an@", "") == s2;
    assert '@' !in s2;
    ReplaceAllPlain(s2, "@s@", "s");
  }

  /** The article "@an@" before a noun: "an" for one monster, dropped with
      its space for any other count. */
  lemma PluralArticleAn(pre: string, noun: string, placed: nat)
    requires '@' !in pre && '@' !in noun
    ensures Pluralise(pre + " @an@ " + noun, placed) == pre + (if placed == 1 then " an " else " ") + noun
  {
    if placed == 1 { PluralArticleAnOne(pre, noun); } else { PluralArticleAnMany(pre, noun, placed); }
  }

  /** The plural token survives the replacement of any other token. */
  lemma PluralTokenKept(find: string, repl: string)
    requires |find| >= 3 && find != "@s@"
    ensures ReplaceAll("@s@", find, repl) == "@s@"
  {
    var t := "@s@";
    if |find| == 3 {
      assert t[..3] == t;
      assert t[1..] == "s@";
      assert ReplaceAll("s@", find, repl) == "s@";
    }
  }

  /** A text whose only token is "@s@" holds no article token. */
  lemma SuffixHidesArticles(y: string, post: string)
    requires '@' !in y && '@' !in post
    ensures var m := y + "@s@" + post;
            forall i :: 0 <= i <= |m| ==>
              !OccursAt(m, "@a@", i) && !OccursAt(m, "@an@", i)
              && !OccursAt(m, " @a@", i) && !OccursAt(m, " @an@", i)
  {
    var m := y + "@s@" + post;
    var n := |y|;
    assert m[n] == '@' && m[n + 1] == 's' && m[n + 2] == '@';
    assert forall j :: 0 <= j < |m| && j != n && j != n + 2 ==> m[j] != '@';
    forall i | 0 <= i <= |m|
      ensures !OccursAt(m, "@a@", i) && !OccursAt(m, "@an@", i)
              && !OccursAt(m, " @a@", i) && !OccursAt(m, " @an@", i)
    {
      if i + 3 <= |m| {
        var w := m[i..i + 3];
        assert w[0] == m[i] && w[1] == m[i + 1] && w[2] == m[i + 2];
        assert w != "@a@";
      }
      if i + 4 <= |m| {
        var w := m[i..i + 4];
        assert w[0] == m[i] && w[1] == m[i + 1] && w[2] == m[i + 2] && w[3] == m[i + 3];
        assert w != "@an@" && w != " @a@";
      }
      if i + 5 <= |m| {
        var w := m[i..i + 5];
        assert w[1] == m[i + 1] && w[2] == m[i + 2] && w[3] == m[i + 3] && w[4] == m[i + 4];
        assert w != " @an@";
      }
    }
  }

  /** The plural token, with plain text on both sides, becomes repl. */
  lemma ReplaceAllPlural(y: string, post: string, repl: string)
    requires '@' !in y && '@' !in post
    ensures ReplaceAll(y + "@s@" + post, "@s@", repl) == y + repl + post
  {
    assert y + "@s@" + post == y + ("@s@" + post);
    ReplaceAllPlainPrefix(y, "@s@" + post, "@s@", repl);
    ReplaceAllLeading("@s@", post, repl);
    ReplaceAllPlain(post, "@s@", repl);
  }

  /** A noun followed by "@s@" is pluralised unless exactly one monster
      was placed; the text after it is kept. */
  lemma PluralNoun(noun: string, post: string, placed: nat)
    requires '@' !in noun && '@' !in post
    ensures Pluralise(noun + "@s@" + post, placed) == noun + (if placed == 1 then "" else "s") + post
  {
    var m := noun + "@s@" + post;
    SuffixHidesArticles(noun, post);
    if placed == 1 {
      ReplaceAllAbsent(m, "@a@", "a");
      ReplaceAllAbsent(m, "@an@", "an");
      ReplaceAllPlural(noun, post, "");
    } else {
      ReplaceAllAbsent(m, " @a@", "");
      ReplaceAllAbsent(m, " @an@", "");
      ReplaceAllPlural(noun, post, "s");
    }
  }

  /** The article "@an@" before a noun and its "@s@" hold no "@a@" and no
      " @a@". */
  lemma AnTemplateHidesA(pre: string, noun: string, post: string)
    requires '@' !in pre && '@' !in noun && '@' !in post
    ensures var m := pre + " @an@ " + noun + "@s@" + post;
            forall i :: 0 <= i <= |m| ==> !OccursAt(m, "@a@", i) && !OccursAt(m, " @a@", i)
  {
    var m := pre + " @an@ " + noun + "@s@" + post;
    var n := |pre|;
    var q := n + 6 + |noun|;
    assert m[n + 1] == '@' && m[n + 2] == 'a' && m[n + 3] == 'n' && m[n + 4] == '@' && m[n + 5] == ' ';
    assert m[q] == '@' && m[q + 1] == 's' && m[q + 2] == '@';
    assert forall j :: 0 <= j < |m| && j != n + 1 && j != n + 4 && j != q && j != q + 2 ==> m[j] != '@';
    forall i | 0 <= i <= |m|
      ensures !OccursAt(m, "@a@", i) && !OccursAt(m, " @a@", i)
    {
      if i + 3 <= |m| {
        var w := m[i..i + 3];
        assert w[0] == m[i] && w[1] == m[i + 1] && w[2] == m[i + 2];
        assert w != "@a@";
      }
      if i + 4 <= |m| {
        var w := m[i..i + 4];
        assert w[1] == m[i + 1] && w[2] == m[i + 2] && w[3] == m[i + 3];
        assert w != " @a@";
      }
    }
  }

  /** The article replacements leave a text whose only token is "@s@"
      alone. */
  lemma ArticlesSkipPlural(y: string, post: string, find: string, repl: string)
    requires '@' !in y && '@' !in post
    requires find == "@a@" || find == "@an@" || find == " @a@" || find == " @an@"
    ensures ReplaceAll(y + "@s@" + post, find, repl) == y + "@s@" + post
  {
    SuffixHidesArticles(y, post);
    ReplaceAllAbsent(y + "@s@" + post, find, repl);
  }

  /** The "@a@" replacements leave a template with "@an@" alone. */
  lemma ATokensSkipAn(pre: string, noun: string, post: string, find: string, repl: string)
    requires '@' !in pre && '@' !in noun && '@' !in post
    requires find == "@a@" || find == " @a@"
    ensures var m := pre + " @an@ " + noun + "@s@" + post;
            ReplaceAll(m, find, repl) == m
  {
    AnTemplateHidesA(pre, noun, post);
    ReplaceAllAbsent(pre + " @an@ " + noun + "@s@" + post, find, repl);
  }

  /** A token whose '@' is first, after '@'-free text and followed by text
      that holds no occurrence of it, is replaced. */
  lemma TokenReplaced(p: string, token: string, rest: string, repl: string)
    requires |token| > 0 && token[0] == '@' && '@' !in p
    requires ReplaceAll(rest, token, repl) == rest
    ensures ReplaceAll(p + (token + rest), token, repl) == p + (repl + rest)
  {
    ReplaceAllPlainPrefix(p, token + rest, token, repl);
    ReplaceAllLeading(token, rest, repl);
  }

  /** The first article replacement on a template: the token at the front
      of its part becomes repl, the rest is kept. */
  lemma ArticleReplaced(pre: string, token: string, noun: string, post: string, repl: string)
    requires '@' !in pre && '@' !in noun && '@' !in post
    requires token == "@a@" || token == "@an@"
    ensures ReplaceAll(pre + " " + token + " " + noun + "@s@" + post, token, repl)
            == pre + " " + repl + " " + noun + "@s@" + post
  {
    var rest := " " + noun + "@s@" + post;
    ArticlesSkipPlural(" " + noun, post, token, repl);
    TokenReplaced(pre + " ", token, rest, repl);
    TokenTail(pre + " ", token, noun, post);
    TokenTail(pre + " ", repl, noun, post);
  }

  /** Regrouping the plain text around a plural token. */
  lemma PlainTail(pre: string, noun: string, post: string)
    ensures pre + (" " + noun + "@s@" + post) == pre + " " + noun + "@s@" + post
  {
    var r := " " + noun + "@s@" + post;
    var l := pre + " " + noun + "@s@" + post;
    assert |pre + r| == |l|;
    forall i | 0 <= i < |l|
      ensures (pre + r)[i] == l[i]
    {
      if i < |pre| {
      } else {
        assert (pre + r)[i] == r[i - |pre|];
      }
    }
  }

  /** A token whose '@' is second, followed by text that holds no
      occurrence of it, is dropped. */
  lemma TokenDropped(p: string, token: string, rest: string)
    requires |token| > 1 && token[0] != '@' && token[1] == '@' && '@' !in p
    requires ReplaceAll(rest, token, "") == rest
    ensures ReplaceAll(p + (token + rest), token, "") == p + rest
  {
    assert (token + rest)[0] == token[0];
    ReplaceAllQuietPrefix(p, token + rest, token, "");
    ReplaceAllLeading(token, rest, "");
    assert "" + rest == rest;
  }

  /** Regrouping a template around its token. */
  lemma TokenTail(pre: string, token: string, noun: string, post: string)
    ensures pre + token + " " + noun + "@s@" + post == pre + (token + (" " + noun + "@s@" + post))
  {
    var r := " " + noun + "@s@" + post;
    var l := pre + token + " " + noun + "@s@" + post;
    assert |pre + (token + r)| == |l|;
    forall i | 0 <= i < |l|
      ensures (pre + (token + r))[i] == l[i]
    {
      if i < |pre| {
      } else if i < |pre| + |token| {
        assert (pre + (token + r))[i] == token[i - |pre|];
      } else {
        assert (pre + (token + r))[i] == r[i - |pre| - |token|];
      }
    }
  }

  /** The same for the plural replacement, which drops the token with the
      space before it. */
  lemma ArticleDropped(pre: string, token: string, noun: string, post: string)
    requires '@' !in pre && '@' !in noun && '@' !in post
    requires token == " @a@" || token == " @an@"
    ensures ReplaceAll(pre + token + " " + noun + "@s@" + post, token, "")
            == pre + " " + noun + "@s@" + post
  {
    var rest := " " + noun + "@s@" + post;
    ArticlesSkipPlural(" " + noun, post, token, "");
    TokenDropped(pre, token, rest);
    TokenTail(pre, token, noun, post);
    PlainTail(pre, noun, post);
  }

  lemma PluralTemplateAOne(pre: string, noun: string, post: string)
    requires '@' !in pre && '@' !in noun && '@' !in post
    ensures Pluralise(pre + " @a@ " + noun + "@s@" + post, 1) == pre + " a " + noun + "" + post
  {
    var m := pre + " @a@ " + noun + "@s@" + post;
    var y := pre + " a " + noun;
    assert m == pre + " " + "@a@" + " " + noun + "@s@" + post;
    ArticleReplaced(pre, "@a@", noun, post, "a");
    assert ReplaceAll(m, "@a@", "a") == y + "@s@" + post;
    ArticlesSkipPlural(y, post, "@an@", "an");
    ReplaceAllPlural(y, post, "");
    assert y + "" + post == pre + " a " + noun + "" + post;
  }

  lemma PluralTemplateAMany(pre: string, noun: string, post: string, placed: nat)
    requires '@' !in pre && '@' !in noun && '@' !in post
    requires placed != 1
    ensures Pluralise(pre + " @a@ " + noun + "@s@" + post, placed) == pre + " " + noun + "s" + post
  {
    var m := pre + " @a@ " + noun + "@s@" + post;
    var y := pre + " " + noun;
    assert m == pre + " @a@" + " " + noun + "@s@" + post;
    ArticleDropped(pre, " @a@", noun, post);
    ArticlesSkipPlural(y, post, " @an@", "");
    ReplaceAllPlural(y, post, "s");
  }

  /** A batch template with an article "@a@" and a plural noun: both agree
      with the count, and the text around them is kept. */
  lemma PluralTemplateA(pre: string, noun: string, post: string, placed: nat)
    requires '@' !in pre && '@' !in noun && '@' !in post
    ensures Pluralise(pre + " @a@ " + noun + "@s@" + post, placed)
            == pre + (if placed == 1 then " a " else " ") + noun + (if placed == 1 then "" else "s") + post
  {
    if placed == 1 { PluralTemplateAOne(pre, noun, post); } else { PluralTemplateAMany(pre, noun, post, placed); }
  }

  lemma PluralTemplateAnOne(pre: string, noun: string, post: string)
    requires '@' !in pre && '@' !in noun && '@' !in post
    ensures Pluralise(pre + " @an@ " + noun + "@s@" + post, 1) == pre + " an " + noun + "" + post
  {
    var m := pre + " @an@ " + noun + "@s@" + post;
    var y := pre + " an " + noun;
    ATokensSkipAn(pre, noun, post, "@a@", "a");
    assert m == pre + " " + "@an@" + " " + noun + "@s@" + post;
    ArticleReplaced(pre, "@an@", noun, post, "an");
    assert ReplaceAll(m, "@an@", "an") == y + "@s@" + post;
    ReplaceAllPlural(y, post, "");
    assert y + "" + post == pre + " an " + noun + "" + post;
  }

  lemma PluralTemplateAnMany(pre: string, noun: string, post: string, placed: nat)
    requires '@' !in pre && '@' !in noun && '@' !in post
    requires placed != 1
    ensures Pluralise(pre + " @an@ " + noun + "@s@" + post, placed) == pre + " " + noun + "s" + post
  {
    var m := pre + " @an@ " + noun + "@s@" + post;
    var y := pre + " " + noun;
    ATokensSkipAn(pre, noun, post, " @a@", "");
    assert m == pre + " @an@" + " " + noun + "@s@" + post;
    ArticleDropped(pre, " @an@", noun, post);
    ReplaceAllPlural(y, post, "s");
  }

  /** The same with the article "@an@". */
  lemma PluralTemplateAn(pre: string, noun: string, post: string, placed: nat)
    requires '@' !in pre && '@' !in noun && '@' !in post
    ensures Pluralise(pre + " @an@ " + noun + "@s@" + post, placed)
            == pre + (if placed == 1 then " an " else " ") + noun + (if placed == 1 then "" else "s") + post
  {
    if placed == 1 { PluralTemplateAnOne(pre, noun, post); } else { PluralTemplateAnMany(pre, noun, post, placed); }
  }

  /** Yredelemnul's servant gift, the batch message do_god_gift queues. */
  const YredServantTemplate: string := " grants you @an@ undead servant@s@!"

  /** The parts of that message around its tokens. */
  lemma YredServantParts()
    ensures YredServantTemplate == " grants you" + " @an@ " + "undead servant" + "@s@" + "!"
    ensures '@' !in " grants you" && '@' !in "undead servant" && '@' !in "!"
  {
  }

  lemma YredServantWords()
    ensures " grants you" + " an " + "undead servant" + "" + "!" == " grants you an undead servant!"
    ensures " grants you" + " " + "undead servant" + "s" + "!" == " grants you undead servants!"
  {
  }

  /** That message says "an undead servant" for one and "undead servants"
      for any other count. */
  lemma YredServantMessage(placed: nat)
    ensures Pluralise(YredServantTemplate, placed)
            == if placed == 1 then " grants you an undead servant!" else " grants you undead servants!"
  {
    YredServantParts();
    YredServantWords();
    PluralTemplateAn(" grants you", "undead servant", "!", placed);
  }

  // ------------------------------------------------------------ the walk

  /** The six queues, as their contents. */
  datatype Queues = Queues(data: seq<Request>, callbacks: seq<Callback>, triggerPos: seq<nat>,
                           success: seq<string>, failure: seq<string>, doneCallbacks: seq<Callback>)

  /** Each request has its callback and each done trigger its messages;
      the done callbacks are at least as many as the triggers (they are
      popped, never cleared, so some may be left over from an earlier
      walk at their front). */
  predicate Aligned(q: Queues)
  {
    |q.callbacks| == |q.data| && |q.success| == |q.triggerPos| && |q.failure| == |q.triggerPos|
    && |q.triggerPos| <= |q.doneCallbacks|
  }

  /** The loop's variables between iterations: placed, prev_god, how many
      done triggers have fired (been popped), and the events so far. */
  datatype Cursor = Cursor(placed: nat, prevGod: God, fired: nat, events: seq<Event>)

  /** The count the i-th request starts from: 0 when its god differs from
      prev_god. */
  function PlacedBefore(c: Cursor, god: God): nat
  {
    if c.prevGod != god then 0 else c.placed
  }

  /** Does the front trigger sit at request i? */
  predicate Fires(q: Queues, c: Cursor, i: nat)
  {
    c.fired < |q.triggerPos| && q.triggerPos[c.fired] == i
  }

  /** The message of the batch ending at the front trigger. */
  function BatchMessage(q: Queues, k: nat, placed: nat): string
    requires Aligned(q) && k < |q.triggerPos|
  {
    Pluralise(if placed > 0 then q.success[k] else q.failure[k], placed)
  }

  function CallbackEvents(cb: Callback, at: nat, placed: nat): seq<Event>
  {
    if cb.Callback? then [RequestCallback(cb.id, at, placed)] else []
  }

  /** The speech, when the message is not empty, then the done callback. */
  function DoneEvents(god: God, msg: string, cb: Callback, at: nat, placed: nat): seq<Event>
  {
    (if msg == "" then [] else [Speech(god, msg)])
    + (if cb.Callback? then [DoneCallback(cb.id, at, placed)] else [])
  }

  /** One iteration of the loop of _place_delayed_monsters, for request i. */
  function Step(q: Queues, created: nat -> bool, i: nat, c: Cursor): (r: Cursor)
    requires Aligned(q) && i < |q.data| && c.fired <= |q.triggerPos|
    ensures r.fired <= |q.triggerPos|
    ensures r.fired == c.fired + (if Fires(q, c, i) then 1 else 0)
    ensures r.prevGod == (if Fires(q, c, i) then NoGod else q.data[i].god)
  {
    var god := q.data[i].god;
    var p0 := PlacedBefore(c, god);
    var p1 := if created(i) then p0 + 1 else p0;
    var evs := c.events + CallbackEvents(q.callbacks[i], i, p0);
    if Fires(q, c, i) then
      var k := c.fired;
      Cursor(p1, NoGod, k + 1,
             evs + DoneEvents(god, BatchMessage(q, k, p1), q.doneCallbacks[k], i, p1))
    else Cursor(p1, god, c.fired, evs)
  }

  /** The loop after its first n iterations. */
  function Run(q: Queues, created: nat -> bool, n: nat): (c: Cursor)
    requires Aligned(q) && n <= |q.data|
    ensures c.fired <= |q.triggerPos|
  {
    if n == 0 then Cursor(0, NoGod, 0, [])
    else Step(q, created, n - 1, Run(q, created, n - 1))
  }

  /** One pass of the loop of _place_delayed_monsters, over request i of
      the queues given field by field. */
  method Visit(data: seq<Request>, callbacks: seq<Callback>, triggerPos: seq<nat>,
               success: seq<string>, failure: seq<string>, doneCallbacks: seq<Callback>,
               created: nat -> bool, i: nat, placed0: nat, prevGod0: God, front0: nat, events0: seq<Event>)
    returns (placed: nat, prevGod: God, front: nat, events: seq<Event>)
    requires Aligned(Queues(data, callbacks, triggerPos, success, failure, doneCallbacks))
    requires i < |data| && front0 <= |triggerPos|
    ensures Cursor(placed, prevGod, front, events)
            == Step(Queues(data, callbacks, triggerPos, success, failure, doneCallbacks),
                    created, i, Cursor(placed0, prevGod0, front0, events0))
  {
    placed, prevGod, front, events := placed0, prevGod0, front0, events0;
    var mg := data[i];
    var cback := callbacks[i];
    if prevGod != mg.god {
      placed := 0;
      prevGod := mg.god;
    }
    events := events + CallbackEvents(cback, i, placed);
    if created(i) {
      placed := placed + 1;
    }
    if front < |triggerPos| && triggerPos[front] == i {
      var done := doneCallbacks[front];
      var msg := Pluralise(if placed > 0 then success[front] else failure[front], placed);
      prevGod := NoGod;
      front := front + 1;
      events := events + DoneEvents(mg.god, msg, done, i, placed);
    }
  }

  // ------------------------------------------------------------ the queues

  /** The static queues of religion.cc. */
  class DelayedMonsters {
    var data: seq<Request>
    var callbacks: seq<Callback>
    var triggerPos: seq<nat>
    var success: seq<string>
    var failure: seq<string>
    var doneCallbacks: seq<Callback>

    ghost function Contents(): Queues
      reads this
    {
      Queues(data, callbacks, triggerPos, success, failure, doneCallbacks)
    }

    ghost predicate Valid()
      reads this
    {
      Aligned(Contents())
    }

    constructor ()
      ensures Contents() == Queues([], [], [], [], [], [])
      ensures Valid()
    {
      data := [];
      callbacks := [];
      triggerPos := [];
      success := [];
      failure := [];
      doneCallbacks := [];
    }

    /** delayed_monster(mg, callback): queue a request. */
    method DelayedMonster(mg: Request, callback: Callback)
      requires Valid()
      modifies this
      ensures Contents() == old(Contents()).(data := old(data) + [mg], callbacks := old(callbacks) + [callback])
      ensures Valid()
    {
      data := data + [mg];
      callbacks := callbacks + [callback];
    }

    /** delayed_monster_done(success, failure, callback): end a batch at
        the last queued request, which must exist. */
    method DelayedMonsterDone(succ: string, fail: string, callback: Callback)
      requires Valid() && |data| > 0
      modifies this
      ensures Contents() == old(Contents()).(triggerPos := old(triggerPos) + [|old(data)| - 1],
                                            success := old(success) + [succ],
                                            failure := old(failure) + [fail],
                                            doneCallbacks := old(doneCallbacks) + [callback])
      ensures Valid()
    {
      triggerPos := triggerPos + [|data| - 1];
      success := success + [succ];
      failure := failure + [fail];
      doneCallbacks := doneCallbacks + [callback];
    }

    /** _place_delayed_monsters: walk the requests in order, popping the
        front of the done-trigger deques as each trigger fires, then clear
        every queue but the done callbacks, of which only those popped are
        gone. */
    method PlaceDelayedMonsters(created: nat -> bool) returns (events: seq<Event>)
      requires Valid()
      modifies this
      ensures var r := Run(old(Contents()), created, |old(data)|);
              events == r.events
              && data == [] && callbacks == [] && triggerPos == [] && success == [] && failure == []
              && doneCallbacks == old(doneCallbacks)[r.fired..]
      ensures Valid()
    {
      ghost var q := Contents();
      var placed: nat := 0;
      var prevGod := NoGod;
      // the front of the done-trigger deques: how many have been popped
      var front: nat := 0;
      events := [];
      var i := 0;
      while i < |data|
        invariant Contents() == q && i <= |data|
        invariant Cursor(placed, prevGod, front, events) == Run(q, created, i)
      {
        placed, prevGod, front, events := Visit(data, callbacks, triggerPos, success, failure, doneCallbacks,
                                                created, i, placed, prevGod, front, events);
        i := i + 1;
      }
      doneCallbacks := doneCallbacks[front..];
      data := [];
      callbacks := [];
      triggerPos := [];
      success := [];
      failure := [];
    }
  }

  // ------------------------------------------------------------ lemmas

  /** Gods of the requests from lo up to (not including) hi are all g. */
  predicate SameGod(q: Queues, lo: nat, hi: nat, g: God)
    requires hi <= |q.data|
  {
    forall j :: lo <= j < hi ==> q.data[j].god == g
  }

  /** How many of the requests from lo up to hi produced a monster. */
  function CountCreated(created: nat -> bool, lo: nat, hi: nat): nat
    decreases hi - lo
  {
    if hi <= lo then 0 else CountCreated(created, lo, hi - 1) + (if created(hi - 1) then 1 else 0)
  }

  /** The per-god counter counts the monsters of its batch: when a run of
      requests for one god g (not GOD_NO_GOD) starts at lo, follows a
      request of another god (or the start of the queue) and no trigger
      fires inside it, the count after request hi - 1 is the number of
      monsters created from lo on. */
  lemma {:induction false} BatchCountsItsMonsters(q: Queues, created: nat -> bool, lo: nat, hi: nat, g: God)
    requires Aligned(q) && lo < hi <= |q.data| && g != NoGod && SameGod(q, lo, hi, g)
    requires Run(q, created, lo).prevGod != g
    requires forall j :: lo <= j < hi - 1 ==> !Fires(q, Run(q, created, j), j)
    ensures Run(q, created, hi).placed == CountCreated(created, lo, hi)
    decreases hi - lo
  {
    var c := Run(q, created, hi - 1);
    assert Run(q, created, hi) == Step(q, created, hi - 1, c);
    if hi - 1 > lo {
      BatchCountsItsMonsters(q, created, lo, hi - 1, g);
      assert c.prevGod == g && PlacedBefore(c, g) == c.placed;
    } else {
      assert PlacedBefore(c, g) == 0;
    }
  }

  /** The god changing starts a new count: a request for a god other than
      prev_god is handed 0 by its callback. */
  lemma NewGodStartsAtZero(q: Queues, created: nat -> bool, i: nat)
    requires Aligned(q) && i < |q.data| && q.callbacks[i].Callback?
    requires Run(q, created, i).prevGod != q.data[i].god
    ensures Run(q, created, i + 1).events
            == Run(q, created, i).events + [RequestCallback(q.callbacks[i].id, i, 0)]
               + (if Fires(q, Run(q, created, i), i) then
                    var p := if created(i) then 1 else 0;
                    DoneEvents(q.data[i].god, BatchMessage(q, Run(q, created, i).fired, p),
                               q.doneCallbacks[Run(q, created, i).fired], i, p)
                  else [])
  {
  }

  /** After a trigger prev_god is GOD_NO_GOD, so a following request of
      the same god as the batch just ended starts again from 0, while a
      following GOD_NO_GOD request inherits the count. */
  lemma AfterTriggerCount(q: Queues, created: nat -> bool, i: nat)
    requires Aligned(q) && i + 1 < |q.data| && Fires(q, Run(q, created, i), i)
    ensures q.data[i + 1].god != NoGod ==> PlacedBefore(Run(q, created, i + 1), q.data[i + 1].god) == 0
    ensures q.data[i + 1].god == NoGod ==>
              PlacedBefore(Run(q, created, i + 1), q.data[i + 1].god) == Run(q, created, i + 1).placed
  {
  }

  /** The batch message is the success text when a monster was placed in
      the batch and the failure text otherwise, pluralised by the count: a
      text without tokens is spoken as it stands, and an article before a
      noun and a noun followed by "@s@" agree with the count, alone or
      together, with the text around them kept. */
  lemma MessageChoice(q: Queues, k: nat, placed: nat, pre: string, noun: string, post: string)
    requires Aligned(q) && k < |q.triggerPos|
    ensures var m := if placed > 0 then q.success[k] else q.failure[k];
            var b := BatchMessage(q, k, placed);
            var plain := '@' !in pre && '@' !in noun && '@' !in post;
            ('@' !in m ==> b == m)
            && (plain && m == pre + " @a@ " + noun
                ==> b == pre + (if placed == 1 then " a " else " ") + noun)
            && (plain && m == pre + " @an@ " + noun
                ==> b == pre + (if placed == 1 then " an " else " ") + noun)
            && (plain && m == noun + "@s@" + post
                ==> b == noun + (if placed == 1 then "" else "s") + post)
            && (plain && m == pre + " @a@ " + noun + "@s@" + post
                ==> b == pre + (if placed == 1 then " a " else " ") + noun + (if placed == 1 then "" else "s") + post)
            && (plain && m == pre + " @an@ " + noun + "@s@" + post
                ==> b == pre + (if placed == 1 then " an " else " ") + noun + (if placed == 1 then "" else "s") + post)
  {
    var m := if placed > 0 then q.success[k] else q.failure[k];
    if '@' !in m { PluraliseWithoutTokens(m, placed); }
    if '@' !in pre && '@' !in noun && '@' !in post {
      PluralArticleA(pre, noun, placed);
      PluralArticleAn(pre, noun, placed);
      PluralNoun(noun, post, placed);
      PluralTemplateA(pre, noun, post, placed);
      PluralTemplateAn(pre, noun, post, placed);
    }
  }

  /** The triggers so far are those below n, and the next one is not. */
  predicate FiredBelow(q: Queues, fired: nat, n: nat)
  {
    fired <= |q.triggerPos|
    && (forall k :: 0 <= k < fired ==> q.triggerPos[k] < n)
    && (fired < |q.triggerPos| ==> q.triggerPos[fired] >= n)
  }

  predicate StrictlyIncreasing(xs: seq<nat>)
  {
    forall a, b :: 0 <= a < b < |xs| ==> xs[a] < xs[b]
  }

  lemma {:induction false} RunFiresInOrder(q: Queues, created: nat -> bool, n: nat)
    requires Aligned(q) && n <= |q.data| && StrictlyIncreasing(q.triggerPos)
    ensures FiredBelow(q, Run(q, created, n).fired, n)
  {
    if n > 0 {
      RunFiresInOrder(q, created, n - 1);
    }
  }

  /** When every batch was closed after at least one new request (trigger
      positions strictly increasing, as delayed_monster_done leaves them
      when each call follows a delayed_monster), every trigger fires. */
  lemma EveryTriggerFires(q: Queues, created: nat -> bool)
    requires Aligned(q) && StrictlyIncreasing(q.triggerPos)
    requires forall k :: 0 <= k < |q.triggerPos| ==> q.triggerPos[k] < |q.data|
    ensures Run(q, created, |q.data|).fired == |q.triggerPos|
  {
    RunFiresInOrder(q, created, |q.data|);
  }

  /** Two delayed_monster_done calls with no request between them put two
      triggers at one position; only the first fires, and the second's
      done callback stays queued after the walk. */
  lemma DoubleDoneLeavesCallback(created: nat -> bool)
    ensures var q := Queues([Request(Xom, 0)], [NoCallback], [0, 0], ["a", "b"], ["c", "d"],
                            [Callback(1), Callback(2)]);
            Run(q, created, 1).fired == 1
            && q.doneCallbacks[Run(q, created, 1).fired..] == [Callback(2)]
  {
    var q := Queues([Request(Xom, 0)], [NoCallback], [0, 0], ["a", "b"], ["c", "d"],
                    [Callback(1), Callback(2)]);
    assert Run(q, created, 0).fired == 0;
  }
}
