/** chunk_message: the AI reply is split into chat-sized chunks at word
    boundaries. Words are taken in order; a word joins the current chunk
    after a space unless that would make the chunk longer than max_len,
    in which case the chunk is emitted and the word starts the next one. */
module Chunking {
  import opened Text

  /** The chunks still to come when the loop stands before the words ws
      with the chunk under construction `current` ("" for none). */
  function Pack(ws: seq<string>, current: string, maxLen: int): (cs: seq<string>)
    decreases |ws|
  {
    if ws == [] then (if current != "" then [current] else [])
    else
      var w := ws[0];
      if current != "" && |current| + 1 + |w| > maxLen then [current] + Pack(ws[1..], w, maxLen)
      else Pack(ws[1..], if current != "" then current + " " + w else w, maxLen)
  }

  /** Python's text[:m], for either sign of m. */
  function Prefix(text: string, m: int): (r: string)
    ensures |r| <= |text|
  {
    if m >= 0 then (if m <= |text| then text[..m] else text)
    else if |text| + m > 0 then text[..|text| + m]
    else ""
  }

  /** What chunk_message returns: the packed chunks, or the whole text cut
      to max_len when it has no words. */
  function Chunks(text: string, maxLen: int): (cs: seq<string>)
  {
    var cs := Pack(Words(text), "", maxLen);
    if cs != [] then cs else [Prefix(text, maxLen)]
  }

  /** chunk_message as the loop the source runs. */
  method ChunkMessage(text: string, maxLen: int) returns (chunks: seq<string>)
    ensures chunks == Chunks(text, maxLen)
  {
    var words := Words(text);
    chunks := [];
    var current := "";
    for i := 0 to |words|
      invariant chunks + Pack(words[i..], current, maxLen) == Pack(words, "", maxLen)
    {
      var word := words[i];
      PackStep(words, i, current, maxLen, chunks);
      if current != "" && |current| + 1 + |word| > maxLen {
        chunks := chunks + [current];
        current := word;
      } else {
        current := if current != "" then current + " " + word else word;
      }
    }
    if current != "" {
      chunks := chunks + [current];
    }
    assert Pack(words[|words|..], current, maxLen) == (if current != "" then [current] else []);
    if chunks == [] {
      chunks := [Prefix(text, maxLen)];
    }
  }

  /** One iteration of the loop, stated on its variables. */
  lemma PackStep(ws: seq<string>, i: nat, current: string, maxLen: int, chunks: seq<string>)
    requires i < |ws|
    ensures var w := ws[i];
      if current != "" && |current| + 1 + |w| > maxLen then
        chunks + Pack(ws[i..], current, maxLen) == (chunks + [current]) + Pack(ws[i + 1..], w, maxLen)
      else
        chunks + Pack(ws[i..], current, maxLen)
          == chunks + Pack(ws[i + 1..], if current != "" then current + " " + w else w, maxLen)
  {
    assert ws[i..][1..] == ws[i + 1..];
    var w := ws[i];
    if current != "" && |current| + 1 + |w| > maxLen {
      assert chunks + ([current] + Pack(ws[i + 1..], w, maxLen)) == (chunks + [current]) + Pack(ws[i + 1..], w, maxLen);
    }
  }

  // ---- properties ----

  predicate NonEmptyWords(ws: seq<string>)
  {
    forall i :: 0 <= i < |ws| ==> ws[i] != ""
  }

  lemma JoinCons(a: string, xs: seq<string>)
    requires xs != []
    ensures Join([a] + xs) == a + " " + Join(xs)
  {
    assert ([a] + xs)[1..] == xs;
  }

  /** Packing loses no word and adds none: the chunks, joined with single
      spaces, are the words joined with single spaces, in order. */
  lemma {:induction false} PackJoin(ws: seq<string>, current: string, maxLen: int)
    requires NonEmptyWords(ws)
    ensures current != "" ==> Join(Pack(ws, current, maxLen)) == Join([current] + ws)
    ensures current == "" ==> Join(Pack(ws, current, maxLen)) == Join(ws)
    decreases |ws|
  {
    if ws == [] {
      assert [current] + ws == [current];
    } else {
      var w := ws[0];
      var rest := ws[1..];
      assert ws == [w] + rest;
      PackJoin(rest, w, maxLen);
      PackNonEmpty(rest, w, maxLen);
      if current != "" && |current| + 1 + |w| > maxLen {
        JoinCons(current, Pack(rest, w, maxLen));
        JoinCons(current, ws);
        assert [current] + ws == [current] + ([w] + rest);
      } else if current != "" {
        var c := current + " " + w;
        PackJoin(rest, c, maxLen);
        JoinCons(current, ws);
        if rest != [] {
          JoinCons(c, rest);
          JoinCons(w, rest);
        }
      }
    }
  }

  /** A chunk under construction is always emitted. */
  lemma {:induction false} PackNonEmpty(ws: seq<string>, current: string, maxLen: int)
    requires current != ""
    ensures Pack(ws, current, maxLen) != []
    decreases |ws|
  {
    if ws != [] {
      var w := ws[0];
      if !(|current| + 1 + |w| > maxLen) {
        PackNonEmpty(ws[1..], current + " " + w, maxLen);
      }
    }
  }

  /** Every chunk fits in max_len, except a single word that is longer
      on its own; no chunk is empty. */
  lemma {:induction false} PackFits(ws: seq<string>, current: string, maxLen: int, all: seq<string>)
    requires NonEmptyWords(ws)
    requires forall i :: 0 <= i < |ws| ==> ws[i] in all
    requires current == "" || |current| <= maxLen || current in all
    ensures forall c :: c in Pack(ws, current, maxLen) ==> c != "" && (|c| <= maxLen || c in all)
    decreases |ws|
  {
    if ws != [] {
      var w := ws[0];
      assert w in all;
      assert forall i :: 0 <= i < |ws[1..]| ==> ws[1..][i] == ws[i + 1];
      if current != "" && |current| + 1 + |w| > maxLen {
        PackFits(ws[1..], w, maxLen, all);
      } else {
        PackFits(ws[1..], if current != "" then current + " " + w else w, maxLen, all);
      }
    }
  }

  /** chunk_message's guarantees: never empty; with words, the chunks join
      back to the words and each fits or is a single word; with none, the
      text cut to max_len. */
  lemma ChunksSpec(text: string, maxLen: int)
    ensures Chunks(text, maxLen) != []
    ensures Words(text) != [] ==> Join(Chunks(text, maxLen)) == Join(Words(text))
    ensures Words(text) != [] ==> forall c :: c in Chunks(text, maxLen) ==>
      c != "" && (|c| <= maxLen || c in Words(text))
    ensures Words(text) == [] ==> Chunks(text, maxLen) == [Prefix(text, maxLen)]
  {
    var ws := Words(text);
    if ws != [] {
      PackJoin(ws, "", maxLen);
      PackFits(ws, "", maxLen, ws);
      var w := ws[0];
      PackNonEmpty(ws[1..], w, maxLen);
      assert Pack(ws, "", maxLen) == Pack(ws[1..], w, maxLen);
    }
  }
}
