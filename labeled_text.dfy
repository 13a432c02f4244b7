/** The label and labelled-text endpoints: defining a label, ingesting
    labelled text (split into sentences, tokenised, one record per sentence),
    reading records page by page, and describing a label with its data count. */
module LabeledText {
  import opened Common
  import opened Documents

  // ---------------------------------------------------------------------
  // Label definition
  // ---------------------------------------------------------------------

  /** A character of the class `[;|(|)]`: `;`, `|`, `(` and `)`. */
  predicate Forbidden(c: char)
  {
    c == ';' || c == '|' || c == '(' || c == ')'
  }

  /** `re.findall(r'[;|(|)]', name)`: every forbidden character of the name,
      in order, one match per occurrence. */
  function FindForbidden(name: string): (found: seq<char>)
    ensures |found| <= |name|
    ensures forall i | 0 <= i < |found| :: Forbidden(found[i])
    ensures forall i | 0 <= i < |name| && Forbidden(name[i]) :: name[i] in found
  {
    if name == [] then []
    else
      assert forall i | 1 <= i < |name| :: name[i] == name[1..][i - 1];
      (if Forbidden(name[0]) then [name[0]] else []) + FindForbidden(name[1..])
  }

  /** A name is refused exactly when it has a forbidden character. */
  lemma {:induction false} RefusedIffForbidden(name: string)
    ensures FindForbidden(name) != [] <==> exists i | 0 <= i < |name| :: Forbidden(name[i])
  {
    if name != [] && !Forbidden(name[0]) {
      RefusedIffForbidden(name[1..]);
      if exists i | 0 <= i < |name| :: Forbidden(name[i]) {
        var i :| 0 <= i < |name| && Forbidden(name[i]);
        assert name[1..][i - 1] == name[i];
      }
      if exists i | 0 <= i < |name[1..]| :: Forbidden(name[1..][i]) {
        var i :| 0 <= i < |name[1..]| && Forbidden(name[1..][i]);
        assert name[i + 1] == name[1..][i];
      }
    }
  }

  /** `'", "'.join(found)` for single-character matches. */
  function JoinChars(found: seq<char>, sep: string): (r: string)
    ensures |found| > 0 ==> |r| == |found| + (|found| - 1) * |sep|
    ensures |found| == 0 ==> r == []
  {
    if |found| == 0 then []
    else if |found| == 1 then [found[0]]
    else [found[0]] + sep + JoinChars(found[1..], sep)
  }

  /** The joined list holds the i-th match at position i * (|sep| + 1): the
      message names every offending character, in order. */
  lemma {:induction false} JoinPlacesEachMatch(found: seq<char>, sep: string, i: nat)
    requires i < |found|
    ensures i * (|sep| + 1) < |JoinChars(found, sep)|
    ensures JoinChars(found, sep)[i * (|sep| + 1)] == found[i]
  {
    if i > 0 {
      JoinPlacesEachMatch(found[1..], sep, i - 1);
      var m := |sep| + 1;
      assert i * m == (i - 1) * m + m;
      assert JoinChars(found, sep) == ([found[0]] + sep) + JoinChars(found[1..], sep);
    }
  }

  /** The body of the 406 response. */
  function RefusalMessage(found: seq<char>): string
  {
    "Label Name must not contain \"" + JoinChars(found, "\", \"") + "\""
  }

  /** The request body of `POST /labels`. */
  datatype LabelRequest = LabelRequest(
    user: string,
    labelName: string,
    inherit: seq<string>,
    aliasAs: seq<string>,
    comment: string,
    tags: seq<string>)

  /** An HTTP response: its status code, its message and, for a duplicate
      name, the stored label. */
  datatype LabelResponse = LabelResponse(status: nat, message: string, existing: Option<Label>)

  /** The record stored for a new label: the request's fields and an adapter
      that has published nothing yet. */
  function NewLabel(request: LabelRequest, id: string, updateTime: Time, createTime: Time): (stored: Label)
    ensures stored.labelName == request.labelName
    ensures stored.adapter == Adapter("", "", [], updateTime)
    ensures stored.user == request.user && stored.inherit == request.inherit && stored.aliasAs == request.aliasAs
    ensures stored.comment == request.comment && stored.tags == request.tags
  {
    Label(id, request.user, request.labelName, request.inherit, request.aliasAs, request.comment,
          request.tags, Adapter("", "", [], updateTime), createTime)
  }

  /** `define_new_label`. `id` is the object id the store assigns, `updateTime`
      and `createTime` the two clock readings, and `insertError` the error the
      insert raises, if any. A name with a forbidden character is refused with
      406; an existing name is answered with 200, a failure message and the
      stored label; otherwise the label is inserted and 201 returned, unless
      the insert raises, which is answered with 200 and a failure message. */
  method DefineNewLabel(
    db: Database, request: LabelRequest, id: string, updateTime: Time, createTime: Time,
    insertError: Option<string>)
    returns (response: LabelResponse)
    modifies db
    ensures db.texts == old(db.texts) && db.jobs == old(db.jobs) && db.trainerLog == old(db.trainerLog)
    ensures db.textsModified == old(db.textsModified) && db.restartRequired == old(db.restartRequired)
    ensures var name := request.labelName;
      if FindForbidden(name) != [] then
        response == LabelResponse(406, RefusalMessage(FindForbidden(name)), None) && db.labels == old(db.labels)
      else if name in old(db.labels) then
        response == LabelResponse(200, "Failed, Already have " + name, Some(old(db.labels)[name]))
        && db.labels == old(db.labels)
      else if insertError.Some? then
        response == LabelResponse(200, "Fail, please check the Error Message", None) && db.labels == old(db.labels)
      else
        response == LabelResponse(201, "Success, new label " + name + " added.", None)
        && db.labels == old(db.labels)[name := NewLabel(request, id, updateTime, createTime)]
  {
    var found := FindForbidden(request.labelName);
    if |found| != 0 {
      return LabelResponse(406, RefusalMessage(found), None);
    }
    if request.labelName in db.labels {
      return LabelResponse(200, "Failed, Already have " + request.labelName, Some(db.labels[request.labelName]));
    }
    if insertError.Some? {
      return LabelResponse(200, "Fail, please check the Error Message", None);
    }
    db.labels := db.labels[request.labelName := NewLabel(request, id, updateTime, createTime)];
    response := LabelResponse(201, "Success, new label " + request.labelName + " added.", None);
  }

  // ---------------------------------------------------------------------
  // Sentence segmentation
  // ---------------------------------------------------------------------

  /** The word that closes a sentence: a full stop labelled "O", compared as a
      whole dictionary, so a full stop with any other label does not split. */
  const Terminator := Word(".", ["O"])

  /** The sentences of the submitted words: each sentence runs up to and
      including a terminator, and the words after the last terminator form a
      final sentence, empty when the words end with a terminator. */
  function Sentences(words: seq<Word>): (r: seq<seq<Word>>)
    ensures |r| >= 1
  {
    if words == [] then [[]]
    else
      var rest := Sentences(words[1..]);
      if words[0] == Terminator then [[words[0]]] + rest
      else Prepend([words[0]], rest)
  }

  /** Glue `front` to the beginning of the first sentence. */
  function Prepend(front: seq<Word>, sentences: seq<seq<Word>>): (r: seq<seq<Word>>)
    requires |sentences| >= 1
    ensures |r| == |sentences|
  {
    [front + sentences[0]] + sentences[1..]
  }

  lemma PrependLaws(front: seq<Word>, word: Word, sentences: seq<seq<Word>>)
    requires |sentences| >= 1
    ensures Prepend([], sentences) == sentences
    ensures Prepend(front, Prepend([word], sentences)) == Prepend(front + [word], sentences)
    ensures Prepend(front, [[]]) == [front]
  {
    assert [] + sentences[0] == sentences[0];
    assert [sentences[0]] + sentences[1..] == sentences;
    assert front + ([word] + sentences[0]) == (front + [word]) + sentences[0];
    assert front + [] == front;
  }

  /** The sentence loop of `update_labeled_data`. */
  method Segment(words: seq<Word>) returns (sentences: seq<seq<Word>>)
    ensures sentences == Sentences(words)
  {
    sentences := [];
    var current: seq<Word> := [];
    var i := 0;
    assert words[i..] == words;
    PrependLaws(current, Terminator, Sentences(words));
    while i < |words|
      invariant 0 <= i <= |words|
      invariant Sentences(words) == sentences + Prepend(current, Sentences(words[i..]))
    {
      var word := words[i];
      assert words[i..][1..] == words[i + 1..];
      var rest := Sentences(words[i + 1..]);
      PrependLaws(current, word, rest);
      if word == Terminator {
        sentences := sentences + [current + [word]];
        current := [];
      } else {
        current := current + [word];
      }
      i := i + 1;
    }
    assert words[i..] == [];
    PrependLaws(current, Terminator, [[]]);
    sentences := sentences + [current];
  }

  /** Concatenating the sentences gives back the submitted words. */
  lemma {:induction false} SentencesRejoin(words: seq<Word>)
    ensures Flatten(Sentences(words)) == words
  {
    if words != [] {
      var rest := Sentences(words[1..]);
      SentencesRejoin(words[1..]);
      assert Flatten(rest) == rest[0] + Flatten(rest[1..]);
      if words[0] == Terminator {
        assert Flatten([[words[0]]] + rest) == [words[0]] + Flatten(rest);
      } else {
        var r := Prepend([words[0]], rest);
        assert r[1..] == rest[1..];
        assert Flatten(r) == ([words[0]] + rest[0]) + Flatten(rest[1..]);
      }
      assert words == [words[0]] + words[1..];
    }
  }

  /** There is one sentence more than there are terminators. */
  lemma {:induction false} SentenceCount(words: seq<Word>)
    ensures |Sentences(words)| == multiset(words)[Terminator] + 1
  {
    if words != [] {
      SentenceCount(words[1..]);
      assert words == [words[0]] + words[1..];
      assert multiset(words) == multiset{words[0]} + multiset(words[1..]);
    }
  }

  /** A sentence closed by a terminator, with no terminator before it. */
  predicate Closed(sentence: seq<Word>)
  {
    |sentence| > 0 && sentence[|sentence| - 1] == Terminator && Terminator !in sentence[..|sentence| - 1]
  }

  lemma ClosedPrepend(word: Word, sentence: seq<Word>)
    requires word != Terminator && Closed(sentence)
    ensures Closed([word] + sentence)
  {
    assert ([word] + sentence)[..|sentence|] == [word] + sentence[..|sentence| - 1];
  }

  predicate AllButLastClosed(sentences: seq<seq<Word>>)
  {
    forall s | 0 <= s < |sentences| - 1 :: Closed(sentences[s])
  }

  /** Every sentence but the last ends with its only terminator. */
  lemma {:induction false} InnerSentencesClosed(words: seq<Word>)
    ensures AllButLastClosed(Sentences(words))
  {
    if words != [] {
      var rest := Sentences(words[1..]);
      InnerSentencesClosed(words[1..]);
      var r := Sentences(words);
      if words[0] == Terminator {
        assert Closed([words[0]]);
        assert forall s | 1 <= s < |r| :: r[s] == rest[s - 1];
      } else {
        assert forall s | 1 <= s < |r| :: r[s] == rest[s];
        if |r| > 1 {
          assert |rest| == |r| && 0 < |rest| - 1;
          assert Closed(rest[0]);
          ClosedPrepend(words[0], rest[0]);
        }
      }
    }
  }

  /** The last sentence holds no terminator. */
  lemma {:induction false} LastSentenceOpen(words: seq<Word>)
    ensures var r := Sentences(words); Terminator !in r[|r| - 1]
  {
    if words != [] {
      var rest := Sentences(words[1..]);
      LastSentenceOpen(words[1..]);
      var r := Sentences(words);
      if words[0] == Terminator {
        assert r[|r| - 1] == rest[|rest| - 1];
      } else if |r| > 1 {
        assert r[|r| - 1] == rest[|rest| - 1];
      } else {
        assert r[0] == [words[0]] + rest[0];
      }
    }
  }

  // ---------------------------------------------------------------------
  // Tokenisation
  // ---------------------------------------------------------------------

  /** The string handed to the tokenizer for word i of a sentence: words
      strictly between the first and the last get a leading space, which the
      byte-level tokenizer needs to see a word start. */
  function WordInput(sentence: seq<Word>, i: nat): (r: string)
    requires i < |sentence|
    ensures |r| == |sentence[i].text| + (if 0 < i < |sentence| - 1 then 1 else 0)
    ensures r[|r| - |sentence[i].text|..] == sentence[i].text
  {
    if i != 0 && i != |sentence| - 1 then " " + sentence[i].text else sentence[i].text
  }

  /** The space is added exactly to the inner words, and nothing else changes. */
  lemma InnerWordsGetSpace(sentence: seq<Word>, i: nat)
    requires i < |sentence|
    ensures WordInput(sentence, i) == " " + sentence[i].text <==> 0 < i < |sentence| - 1
    ensures WordInput(sentence, i) == sentence[i].text <==> !(0 < i < |sentence| - 1)
  {
    if 0 < i < |sentence| - 1 {
      assert |WordInput(sentence, i)| != |sentence[i].text|;
    } else {
      assert |WordInput(sentence, i)| != |" " + sentence[i].text|;
    }
  }

  /** The tokens of one word, each carrying the word's labels. */
  function Tagged(tokens: seq<string>, labels: seq<string>): (r: seq<TokenLabels>)
    ensures |r| == |tokens|
    ensures forall j | 0 <= j < |r| :: r[j] == TokenLabels(tokens[j], labels)
  {
    seq(|tokens|, j requires 0 <= j < |tokens| => TokenLabels(tokens[j], labels))
  }

  /** `token_and_labels` of the first n words of a sentence. */
  function TokensOf(sentence: seq<Word>, n: nat, tokenize: string -> seq<string>): (r: seq<TokenLabels>)
    requires n <= |sentence|
    ensures forall j | 0 <= j < |r| :: exists i | 0 <= i < n :: r[j].labels == sentence[i].labels
  {
    if n == 0 then []
    else TokensOf(sentence, n - 1, tokenize) + Tagged(tokenize(WordInput(sentence, n - 1)), sentence[n - 1].labels)
  }

  /** The token loop of `update_labeled_data` for one sentence. */
  method TokenizeSentence(sentence: seq<Word>, tokenize: string -> seq<string>) returns (tokens: seq<TokenLabels>)
    ensures tokens == TokensOf(sentence, |sentence|, tokenize)
  {
    tokens := [];
    var i := 0;
    while i < |sentence|
      invariant 0 <= i <= |sentence|
      invariant tokens == TokensOf(sentence, i, tokenize)
    {
      var pieces := tokenize(WordInput(sentence, i));
      var labels := sentence[i].labels;
      var j := 0;
      while j < |pieces|
        invariant 0 <= j <= |pieces|
        invariant tokens == TokensOf(sentence, i, tokenize) + Tagged(pieces[..j], labels)
      {
        assert Tagged(pieces[..j + 1], labels) == Tagged(pieces[..j], labels) + [TokenLabels(pieces[j], labels)];
        tokens := tokens + [TokenLabels(pieces[j], labels)];
        j := j + 1;
      }
      assert pieces[..j] == pieces;
      i := i + 1;
    }
  }

  /** The tokens of word i sit, in order and with word i's labels, right after
      the tokens of the words before it, whatever comes after. */
  lemma WordTokensAt(sentence: seq<Word>, i: nat, n: nat, tokenize: string -> seq<string>)
    requires i < n <= |sentence|
    ensures var start := |TokensOf(sentence, i, tokenize)|;
      var stop := |TokensOf(sentence, i + 1, tokenize)|;
      && start <= stop <= |TokensOf(sentence, n, tokenize)|
      && TokensOf(sentence, n, tokenize)[start..stop] ==
         Tagged(tokenize(WordInput(sentence, i)), sentence[i].labels)
  {
    var upTo := TokensOf(sentence, i + 1, tokenize);
    var word := Tagged(tokenize(WordInput(sentence, i)), sentence[i].labels);
    assert upTo == TokensOf(sentence, i, tokenize) + word;
    TokensPrefix(sentence, i + 1, n, tokenize);
    assert TokensOf(sentence, n, tokenize)[|TokensOf(sentence, i, tokenize)|..|upTo|] == upTo[|TokensOf(sentence, i, tokenize)|..];
  }

  /** The tokens of the first m words begin the tokens of the first n >= m words. */
  lemma {:induction false} TokensPrefix(sentence: seq<Word>, m: nat, n: nat, tokenize: string -> seq<string>)
    requires m <= n <= |sentence|
    ensures TokensOf(sentence, m, tokenize) <= TokensOf(sentence, n, tokenize)
    decreases n
  {
    if m < n {
      TokensPrefix(sentence, m, n - 1, tokenize);
      assert TokensOf(sentence, n, tokenize) ==
        TokensOf(sentence, n - 1, tokenize) + Tagged(tokenize(WordInput(sentence, n - 1)), sentence[n - 1].labels);
    }
  }

  // ---------------------------------------------------------------------
  // Ingestion
  // ---------------------------------------------------------------------

  /** The record stored for one sentence. */
  function Record(
    user: string, tags: seq<string>, sentence: seq<Word>, tokenize: string -> seq<string>,
    id: string, time: Time): LabeledText
  {
    LabeledText(id, user, tags, sentence, TokensOf(sentence, |sentence|, tokenize), time)
  }

  /** The records one submission stores, one per sentence, in order; sentence s
      gets the object id `ids(s)` and the clock reading `clock(s)`. */
  function Records(
    user: string, tags: seq<string>, words: seq<Word>, tokenize: string -> seq<string>,
    ids: nat -> string, clock: nat -> Time): (r: seq<LabeledText>)
    ensures |r| == |Sentences(words)|
    ensures forall s | 0 <= s < |r| :: r[s].textAndLabels == Sentences(words)[s] && r[s].id == ids(s)
  {
    var sentences := Sentences(words);
    var r := seq(|sentences|, s requires 0 <= s < |sentences| =>
      Record(user, tags, sentences[s], tokenize, ids(s), clock(s)));
    assert forall s | 0 <= s < |r| :: r[s].textAndLabels == sentences[s] && r[s].id == ids(s) by {
      forall s | 0 <= s < |r| ensures r[s].textAndLabels == sentences[s] && r[s].id == ids(s) {
        assert r[s] == Record(user, tags, sentences[s], tokenize, ids(s), clock(s));
      }
    }
    r
  }

  /** The stored sentences of one submission, read back in order, are the
      submitted words: nothing is lost, duplicated or reordered. */
  lemma IngestedWordsRejoin(
    user: string, tags: seq<string>, words: seq<Word>, tokenize: string -> seq<string>,
    ids: nat -> string, clock: nat -> Time)
    ensures var r := Records(user, tags, words, tokenize, ids, clock);
      Flatten(seq(|r|, s requires 0 <= s < |r| => r[s].textAndLabels)) == words
  {
    var r := Records(user, tags, words, tokenize, ids, clock);
    var sentences := seq(|r|, s requires 0 <= s < |r| => r[s].textAndLabels);
    assert |sentences| == |Sentences(words)|;
    assert forall s | 0 <= s < |r| :: sentences[s] == Sentences(words)[s];
    assert seq(|r|, s requires 0 <= s < |r| => r[s].textAndLabels) == Sentences(words);
    SentencesRejoin(words);
  }

  /** `update_labeled_data`: store one record per sentence, in order, and
      answer with their object ids in the same order; then stamp the
      collection's modification time with `modifiedAt` and, when asked to,
      flag the trainer for a restart. */
  method UpdateLabeledData(
    db: Database, user: string, tags: seq<string>, words: seq<Word>, refresh: bool,
    tokenize: string -> seq<string>, ids: nat -> string, clock: nat -> Time, modifiedAt: Time)
    returns (insertIds: seq<string>)
    modifies db
    ensures db.texts == old(db.texts) + Records(user, tags, words, tokenize, ids, clock)
    ensures |insertIds| == |Sentences(words)|
    ensures forall s | 0 <= s < |insertIds| :: insertIds[s] == ids(s) && db.texts[|old(db.texts)| + s].id == ids(s)
    ensures db.textsModified == Some(modifiedAt)
    ensures db.restartRequired == (old(db.restartRequired) || refresh)
    ensures db.labels == old(db.labels) && db.jobs == old(db.jobs) && db.trainerLog == old(db.trainerLog)
  {
    var sentences := Segment(words);
    ghost var records := Records(user, tags, words, tokenize, ids, clock);
    insertIds := [];
    var s := 0;
    while s < |sentences|
      invariant 0 <= s <= |sentences| && |records| == |sentences|
      invariant db.texts == old(db.texts) + records[..s]
      invariant |insertIds| == s && forall t | 0 <= t < s :: insertIds[t] == ids(t)
      invariant db.labels == old(db.labels) && db.jobs == old(db.jobs) && db.trainerLog == old(db.trainerLog)
      invariant db.textsModified == old(db.textsModified) && db.restartRequired == old(db.restartRequired)
    {
      var sentence := sentences[s];
      var tokens := TokenizeSentence(sentence, tokenize);
      var record := LabeledText(ids(s), user, tags, sentence, tokens, clock(s));
      RecordsGrow(user, tags, words, tokenize, ids, clock, s);
      db.texts := db.texts + [record];
      insertIds := insertIds + [ids(s)];
      s := s + 1;
    }
    assert records[..s] == records;
    assert |insertIds| == |sentences| == |Sentences(words)|;
    StoredIds(old(db.texts), user, tags, words, tokenize, ids, clock, db.texts);
    db.textsModified := Some(modifiedAt);
    if refresh {
      db.restartRequired := true;
    }
  }

  /** The first s + 1 records are the first s and the record of sentence s. */
  lemma RecordsGrow(
    user: string, tags: seq<string>, words: seq<Word>, tokenize: string -> seq<string>,
    ids: nat -> string, clock: nat -> Time, s: nat)
    requires s < |Sentences(words)|
    ensures var records := Records(user, tags, words, tokenize, ids, clock);
      records[..s + 1] == records[..s] + [Record(user, tags, Sentences(words)[s], tokenize, ids(s), clock(s))]
  {
    var records := Records(user, tags, words, tokenize, ids, clock);
    assert records[s] == Record(user, tags, Sentences(words)[s], tokenize, ids(s), clock(s));
    TakeOneMore(records, s);
  }

  /** Records appended to a store sit after its old records, record s under
      the id `ids(s)`. */
  lemma StoredIds(
    before: seq<LabeledText>, user: string, tags: seq<string>, words: seq<Word>,
    tokenize: string -> seq<string>, ids: nat -> string, clock: nat -> Time, after: seq<LabeledText>)
    requires after == before + Records(user, tags, words, tokenize, ids, clock)
    ensures forall s | 0 <= s < |Sentences(words)| :: after[|before| + s].id == ids(s)
  {
    var records := Records(user, tags, words, tokenize, ids, clock);
    forall s | 0 <= s < |Sentences(words)| ensures after[|before| + s].id == ids(s) {
      assert after[|before| + s] == records[s];
    }
  }

  // ---------------------------------------------------------------------
  // Reading records back
  // ---------------------------------------------------------------------

  /** A bound of a Python slice over a list of length `len`: a negative bound
      counts from the end, and the result is clamped to 0..len. */
  function SliceBound(bound: int, len: nat): (i: nat)
    ensures i <= len
    ensures 0 <= bound ==> i == if bound <= len then bound else len
    ensures bound < 0 ==> i == if -bound <= len then len + bound else 0
  {
    if bound < 0 then (if bound + len < 0 then 0 else bound + len)
    else if bound > len then len else bound
  }

  /** Python's `s[start:end]`, `None` standing for an omitted end. */
  function PySlice<T>(s: seq<T>, start: int, end: Option<int>): (r: seq<T>)
    ensures var lo := SliceBound(start, |s|);
      var hi := if end.None? then |s| else SliceBound(end.value, |s|);
      && |r| == (if lo < hi then hi - lo else 0)
      && forall i | 0 <= i < |r| :: r[i] == s[lo + i]
  {
    var lo := SliceBound(start, |s|);
    var hi := if end.None? then |s| else SliceBound(end.value, |s|);
    if lo < hi then s[lo..hi] else []
  }

  /** The store cursor's `to_list(length)`: everything for `None`, at most
      `length` records otherwise, and an error for a negative length. */
  function ToList<T>(s: seq<T>, length: Option<int>): (r: Option<seq<T>>)
    ensures r.None? <==> length.Some? && length.value < 0
    ensures r.Some? ==> r.value <= s
    ensures length.None? ==> r == Some(s)
    ensures r.Some? && length.Some? ==> |r.value| == if length.value < |s| then length.value else |s|
  {
    if length.None? then Some(s)
    else if length.value < 0 then None
    else if length.value < |s| then Some(s[..length.value])
    else Some(s)
  }

  /** The page of the read endpoints as written: the sentinel `start == end
      == -1` turns the end into `None` but leaves the start at -1. */
  function PageAsWritten<T>(s: seq<T>, start: int, end: int): (r: Option<seq<T>>)
    ensures r.None? <==> end < 0 && !(start == -1 && end == -1)
  {
    var last := if end == -1 && start == -1 then None else Some(end);
    var fetched := ToList(s, last);
    if fetched.None? then None else Some(PySlice(fetched.value, start, last))
  }

  /** With the sentinel, the page as written holds only the last record. */
  lemma SentinelKeepsOnlyLast<T>(s: seq<T>)
    requires |s| > 0
    ensures PageAsWritten(s, -1, -1) == Some([s[|s| - 1]])
    ensures |s| > 1 ==> PageAsWritten(s, -1, -1) != Some(s)
  {
    assert s[|s| - 1..|s|] == [s[|s| - 1]];
  }

  /** Three stored records, read with the sentinel: one record comes back. */
  lemma SentinelCounterexample()
    ensures PageAsWritten([7, 8, 9], -1, -1) == Some([9])
  {
    SentinelKeepsOnlyLast([7, 8, 9]);
  }

  /** The page the sentinel evidently asks for: the start is reset too, so
      `start == end == -1` returns every record. */
  function Page<T>(s: seq<T>, start: int, end: int): (r: Option<seq<T>>)
    ensures r.None? <==> end < 0 && !(start == -1 && end == -1)
    ensures start == -1 && end == -1 ==> r == Some(s)
  {
    var sentinel := end == -1 && start == -1;
    var first := if sentinel then 0 else start;
    var last := if sentinel then None else Some(end);
    var fetched := ToList(s, last);
    assert s[0..|s|] == s;
    if fetched.None? then None else Some(PySlice(fetched.value, first, last))
  }

  /** The corrected page differs from the page as written only at the
      sentinel. */
  lemma PageFixesOnlySentinel<T>(s: seq<T>, start: int, end: int)
    ensures !(start == -1 && end == -1) ==> Page(s, start, end) == PageAsWritten(s, start, end)
  {
  }

  /** With a non-negative end, a page is the records from the normalised
      start up to `end`, cut at the number of records; a negative start counts
      back from that cut, not from the end of the records. */
  lemma PageWindow<T>(s: seq<T>, start: int, end: int)
    requires 0 <= end
    ensures var hi := if end < |s| then end else |s|;
      var lo := if 0 <= start then (if start < hi then start else hi)
                else (if hi + start < 0 then 0 else hi + start);
      && PageAsWritten(s, start, end) == Some(s[lo..hi])
      && Page(s, start, end) == Some(s[lo..hi])
  {
    var hi := if end < |s| then end else |s|;
    var lo := if 0 <= start then (if start < hi then start else hi)
              else (if hi + start < 0 then 0 else hi + start);
    assert s[..|s|] == s;
    assert ToList(s, Some(end)) == Some(s[..hi]);
    assert PageAsWritten(s, start, end) == Some(PySlice(s[..hi], start, Some(end)));
    SliceOfPrefix(s, hi, start, end, lo);
    PageFixesOnlySentinel(s, start, end);
  }

  /** Slicing the first `hi` records with an end of at least `hi`. */
  lemma SliceOfPrefix<T>(s: seq<T>, hi: nat, start: int, end: int, lo: nat)
    requires hi <= |s| && hi <= end
    requires lo == if 0 <= start then (if start < hi then start else hi)
                   else (if hi + start < 0 then 0 else hi + start)
    ensures lo <= hi && PySlice(s[..hi], start, Some(end)) == s[lo..hi]
  {
    var fetched := s[..hi];
    assert SliceBound(start, hi) == lo && SliceBound(end, hi) == hi;
    var r := PySlice(fetched, start, Some(end));
    assert |r| == hi - lo;
    forall i | 0 <= i < |r| ensures r[i] == s[lo..hi][i] {
      assert r[i] == fetched[lo + i];
    }
  }

  /** What a read returns of one record: without detail, everything but the
      words and tokens; with detail, the id, the words and the tokens. */
  datatype TextView =
    | Summary(id: string, user: string, tags: seq<string>, timestamp: Time)
    | Detail(id: string, textAndLabels: seq<Word>, tokenAndLabels: seq<TokenLabels>)

  function View(t: LabeledText, detail: bool): (v: TextView)
    ensures v.id == t.id && (v.Detail? <==> detail)
  {
    if detail then Detail(t.id, t.textAndLabels, t.tokenAndLabels)
    else Summary(t.id, t.user, t.tags, t.timestamp)
  }

  function Views(texts: seq<LabeledText>, detail: bool): (r: seq<TextView>)
    ensures |r| == |texts|
    ensures forall k | 0 <= k < |r| :: r[k] == View(texts[k], detail)
  {
    seq(|texts|, k requires 0 <= k < |texts| => View(texts[k], detail))
  }

  /** The records whose property `keep` holds, in store order. */
  function Keep(texts: seq<LabeledText>, keep: LabeledText -> bool): (r: seq<LabeledText>)
    ensures |r| <= |texts|
    ensures forall t :: t in r <==> t in texts && keep(t)
  {
    if texts == [] then []
    else
      assert texts == [texts[0]] + texts[1..];
      assert forall t | t in texts[1..] :: t in texts;
      (if keep(texts[0]) then [texts[0]] else []) + Keep(texts[1..], keep)
  }

  /** Filtering distributes over concatenation: together with the one-record
      case it keeps the records in store order. */
  lemma {:induction false} KeepAppend(a: seq<LabeledText>, b: seq<LabeledText>, keep: LabeledText -> bool)
    ensures Keep(a + b, keep) == Keep(a, keep) + Keep(b, keep)
  {
    if a == [] {
      assert a + b == b;
    } else {
      var head := if keep(a[0]) then [a[0]] else [];
      assert (a + b)[0] == a[0];
      assert (a + b)[1..] == a[1..] + b;
      KeepAppend(a[1..], b, keep);
      assert Keep(a + b, keep) == head + Keep(a[1..] + b, keep);
    }
  }

  /** When every record matches, all are returned; when none does, none is. */
  lemma {:induction false} KeepAllOrNone(texts: seq<LabeledText>, keep: LabeledText -> bool)
    ensures (forall t | t in texts :: keep(t)) ==> Keep(texts, keep) == texts
    ensures (forall t | t in texts :: !keep(t)) ==> Keep(texts, keep) == []
  {
    if texts != [] {
      assert texts == [texts[0]] + texts[1..];
      assert forall t | t in texts[1..] :: t in texts;
      KeepAllOrNone(texts[1..], keep);
    }
  }

  /** A weaker property keeps at least as many records. */
  lemma {:induction false} KeepMonotone(texts: seq<LabeledText>, narrow: LabeledText -> bool, wide: LabeledText -> bool)
    requires forall t | t in texts :: narrow(t) ==> wide(t)
    ensures |Keep(texts, narrow)| <= |Keep(texts, wide)|
  {
    if texts != [] {
      assert forall t | t in texts[1..] :: t in texts;
      KeepMonotone(texts[1..], narrow, wide);
    }
  }

  /** The store's `{"text_and_labels.labels": {"$in": wanted}}`: some word of
      the record carries some wanted label. */
  predicate Mentions(t: LabeledText, wanted: seq<string>)
  {
    exists w | w in t.textAndLabels :: exists l | l in w.labels :: l in wanted
  }

  function Matching(texts: seq<LabeledText>, wanted: seq<string>): (r: seq<LabeledText>)
    ensures forall t :: t in r <==> t in texts && Mentions(t, wanted)
  {
    Keep(texts, t => Mentions(t, wanted))
  }

  /** `get_labeled_data`: the records mentioning `labelName`, in store order,
      viewed with or without detail, paged by `start` and `end` as the endpoint
      does it; None is the error the cursor raises for a negative length. */
  function GetLabeledData(texts: seq<LabeledText>, labelName: string, detail: bool, start: int, end: int)
    : (r: Option<seq<TextView>>)
    ensures r == PageAsWritten(Views(Matching(texts, [labelName]), detail), start, end)
    ensures r.None? <==> end < 0 && !(start == -1 && end == -1)
    ensures r.Some? ==> forall v | v in r.value ::
      exists t | t in texts :: Mentions(t, [labelName]) && v == View(t, detail)
  {
    var kept := Matching(texts, [labelName]);
    var r := PageAsWritten(Views(kept, detail), start, end);
    ViewedPage(kept, detail, start, end);
    r
  }

  /** `get_labeled_data_by_custom_filter`: the same read, with the records
      chosen by a store query; `matches` is the store's evaluation of it. */
  function GetLabeledDataByFilter(
    texts: seq<LabeledText>, filter: Filter, matches: (Filter, LabeledText) -> bool,
    detail: bool, start: int, end: int)
    : (r: Option<seq<TextView>>)
    ensures r == PageAsWritten(Views(Keep(texts, t => matches(filter, t)), detail), start, end)
    ensures r.None? <==> end < 0 && !(start == -1 && end == -1)
    ensures r.Some? ==> forall v | v in r.value ::
      exists t | t in texts :: matches(filter, t) && v == View(t, detail)
  {
    var kept := Keep(texts, t => matches(filter, t));
    assert forall t | t in kept :: t in texts && matches(filter, t);
    var r := PageAsWritten(Views(kept, detail), start, end);
    ViewedPage(kept, detail, start, end);
    r
  }

  /** Read with the sentinel, the endpoint returns only the view of the last
      matching record. */
  lemma SentinelReadsOnlyLast(texts: seq<LabeledText>, labelName: string, detail: bool)
    requires |Matching(texts, [labelName])| > 0
    ensures var kept := Matching(texts, [labelName]);
      GetLabeledData(texts, labelName, detail, -1, -1) == Some([View(kept[|kept| - 1], detail)])
  {
    var kept := Matching(texts, [labelName]);
    SentinelKeepsOnlyLast(Views(kept, detail));
  }

  /** A page only holds records of the list it pages. */
  lemma PageIsSubsequence<T>(s: seq<T>, start: int, end: int)
    requires PageAsWritten(s, start, end).Some?
    ensures forall x | x in PageAsWritten(s, start, end).value :: x in s
  {
    var last := if end == -1 && start == -1 then None else Some(end);
    var fetched := ToList(s, last).value;
    var page := PageAsWritten(s, start, end).value;
    forall x | x in page ensures x in s {
      var i :| 0 <= i < |page| && page[i] == x;
      assert x in fetched;
    }
  }

  /** A page of views only holds views of the records it pages. */
  lemma ViewedPage(kept: seq<LabeledText>, detail: bool, start: int, end: int)
    ensures PageAsWritten(Views(kept, detail), start, end).Some? ==>
      forall v | v in PageAsWritten(Views(kept, detail), start, end).value :: exists t | t in kept :: v == View(t, detail)
  {
    var views := Views(kept, detail);
    if PageAsWritten(views, start, end).Some? {
      PageIsSubsequence(views, start, end);
      forall v | v in PageAsWritten(views, start, end).value ensures exists t | t in kept :: v == View(t, detail) {
        var k :| 0 <= k < |views| && views[k] == v;
        assert kept[k] in kept;
      }
    }
  }

  /** The answer of `get_label_by_name`. */
  datatype LabelLookup =
    | LabelNotFound(status: nat, message: string)
    | LabelFound(found: Label, dataCount: nat)

  /** `get_label_by_name`: 404 for an unknown name; otherwise the label with the
      number of records mentioning it or one of the labels it inherits. */
  function GetLabelByName(labels: map<string, Label>, texts: seq<LabeledText>, name: string): (r: LabelLookup)
    ensures r.LabelNotFound? <==> name !in labels
    ensures r.LabelNotFound? ==> r.status == 404 && r.message == "Failed, Can't find this label name"
    ensures r.LabelFound? ==>
      && r.found == labels[name]
      && r.dataCount == |Matching(texts, [name] + labels[name].inherit)| && r.dataCount <= |texts|
  {
    if name !in labels then LabelNotFound(404, "Failed, Can't find this label name")
    else LabelFound(labels[name], |Matching(texts, [name] + labels[name].inherit)|)
  }

  /** The data count of a label is at least the number of records that
      `get_labeled_data` finds for its name alone. */
  lemma DataCountCoversOwnRecords(labels: map<string, Label>, texts: seq<LabeledText>, name: string)
    requires name in labels
    ensures GetLabelByName(labels, texts, name).dataCount >= |Matching(texts, [name])|
  {
    var wanted := [name] + labels[name].inherit;
    forall t | t in texts && Mentions(t, [name]) ensures Mentions(t, wanted) {
      var w :| w in t.textAndLabels && exists l | l in w.labels :: l in [name];
      var l :| l in w.labels && l in [name];
      assert l in wanted;
    }
    KeepMonotone(texts, t => Mentions(t, [name]), t => Mentions(t, wanted));
  }
}
