/** lib/bot/messaging.rb: the message bookkeeping behind every bot reply
    (the last bot message of each chat and the two per-chat lists of tracked
    message ids) and the `with_chunks` line chunker.

    The Telegram API is modelled as a log of the calls made to it; a sent
    message gets a fresh id from a counter. Failed deletions are rescued and
    ignored by the source, so a deletion is just a logged call. */
module Messaging {
  import opened Wrappers
  import opened Text
  import opened Config

  /** The `bucket:` argument of `send_message`. */
  datatype Bucket = Rec | Bus

  datatype ApiCall =
    | SendCall(chat: int, text: string, messageId: int)
    | DeleteCall(chat: int, messageId: int)

  /** `Util.chid`: the string form of a chat id, the key of all three maps. */
  function Chid(chat: int): string {
    IntToString(chat)
  }

  /** Two chats never share a key. */
  lemma ChidInjective(a: int, b: int)
    requires a != b
    ensures Chid(a) != Chid(b)
  {
    if Chid(a) == Chid(b) {
      IntToStringInjective(a, b);
    }
  }

  /** `Hash.new { |h, k| h[k] = [] }`: an absent key reads as the empty list. */
  function ListAt(m: map<string, seq<int>>, key: string): seq<int> {
    if key in m then m[key] else []
  }

  /** The three maps of the module, as one value. */
  datatype Books = Books(lastBotMsg: map<string, int>, recMsgs: map<string, seq<int>>, busMsgs: map<string, seq<int>>)
  {
    /** `@last_bot_msg[chid(chat)]`. */
    function Last(chat: int): Option<int> {
      if Chid(chat) in lastBotMsg then Some(lastBotMsg[Chid(chat)]) else None
    }

    /** `@rec_msgs[chid(chat)]` or `@bus_msgs[chid(chat)]`. */
    function Tracked(bucket: Bucket, chat: int): seq<int> {
      ListAt(if bucket == Rec then recMsgs else busMsgs, Chid(chat))
    }
  }

  const NoBooks: Books := Books(map[], map[], map[])

  /** `delete_previous_message`, run unless `suppress_delete`: one deletion of
      the recorded last message, when there is one. */
  function PreviousDeletion(b: Books, chat: int, suppressDelete: bool): (r: seq<ApiCall>)
    ensures |r| <= 1
    ensures r != [] <==> !suppressDelete && b.Last(chat).Some?
    ensures r != [] ==> r[0] == DeleteCall(chat, b.Last(chat).value)
  {
    if !suppressDelete && Chid(chat) in b.lastBotMsg then [DeleteCall(chat, b.lastBotMsg[Chid(chat)])] else []
  }

  /** The maps after `send_message` got the id `id` back from the API. */
  function AfterSend(b: Books, chat: int, id: int, track: bool, bucket: Bucket, suppressDelete: bool): Books {
    var key := Chid(chat);
    Books(
      if suppressDelete then b.lastBotMsg else b.lastBotMsg[key := id],
      if track && bucket == Rec then b.recMsgs[key := ListAt(b.recMsgs, key) + [id]] else b.recMsgs,
      if track && bucket == Bus then b.busMsgs[key := ListAt(b.busMsgs, key) + [id]] else b.busMsgs)
  }

  /** A send without `suppress_delete` records the new id as the chat's last
      message; with it, the record is left as it was. No other chat's record
      changes. */
  lemma SendRecordsLast(b: Books, chat: int, other: int, id: int, track: bool, bucket: Bucket, suppressDelete: bool)
    ensures AfterSend(b, chat, id, track, bucket, suppressDelete).Last(chat) == if suppressDelete then b.Last(chat) else Some(id)
    ensures other != chat ==> AfterSend(b, chat, id, track, bucket, suppressDelete).Last(other) == b.Last(other)
  {
    if other != chat {
      ChidInjective(chat, other);
    }
  }

  /** A tracked send appends the new id to the end of the chosen list of that
      chat only; untracked sends, the other bucket and other chats keep their
      lists. */
  lemma SendTracksOwnList(b: Books, chat: int, other: int, id: int, track: bool, bucket: Bucket, suppressDelete: bool, bk: Bucket)
    ensures AfterSend(b, chat, id, track, bucket, suppressDelete).Tracked(bk, chat)
         == b.Tracked(bk, chat) + (if track && bk == bucket then [id] else [])
    ensures other != chat ==> AfterSend(b, chat, id, track, bucket, suppressDelete).Tracked(bk, other) == b.Tracked(bk, other)
  {
    if other != chat {
      ChidInjective(chat, other);
    }
  }

  /** The maps after `clear_recommender_messages` (for `Rec`) or
      `clear_transport_messages` (for `Bus`): nothing happens on an empty list,
      otherwise the list of that chat is emptied. */
  function AfterClear(b: Books, bucket: Bucket, chat: int): Books {
    var key := Chid(chat);
    if b.Tracked(bucket, chat) == [] then b
    else if bucket == Rec then b.(recMsgs := b.recMsgs[key := []])
    else b.(busMsgs := b.busMsgs[key := []])
  }

  /** Clearing empties the chat's list of that bucket and touches nothing
      else: not the other bucket, not other chats, not the last-message
      record. */
  lemma ClearEmptiesOnlyOwnList(b: Books, bucket: Bucket, chat: int, other: int, bk: Bucket)
    ensures AfterClear(b, bucket, chat).Tracked(bucket, chat) == []
    ensures (bk != bucket || other != chat) ==> AfterClear(b, bucket, chat).Tracked(bk, other) == b.Tracked(bk, other)
    ensures AfterClear(b, bucket, chat).lastBotMsg == b.lastBotMsg
  {
    if other != chat {
      ChidInjective(chat, other);
    }
  }

  /** The deletions issued while clearing a list, one per id, in order. */
  function DeleteCalls(chat: int, ids: seq<int>): (r: seq<ApiCall>)
    ensures |r| == |ids|
    ensures forall i :: 0 <= i < |ids| ==> r[i] == DeleteCall(chat, ids[i])
  {
    seq(|ids|, i requires 0 <= i < |ids| => DeleteCall(chat, ids[i]))
  }

  /** The module state of messaging.rb plus the API it talks to. */
  class Messenger {
    var lastBotMsg: map<string, int>
    var recMsgs: map<string, seq<int>>
    var busMsgs: map<string, seq<int>>
    /** The id the API hands out to the next sent message. */
    var nextId: int
    /** Every API call made so far, in order. */
    var calls: seq<ApiCall>

    /** The three maps. */
    function Snapshot(): Books
      reads this
    {
      Books(lastBotMsg, recMsgs, busMsgs)
    }

    constructor ()
      ensures Snapshot() == NoBooks && calls == [] && nextId == 1
    {
      lastBotMsg, recMsgs, busMsgs := map[], map[], map[];
      nextId, calls := 1, [];
    }

    /** `delete_previous_message`. */
    method DeletePreviousMessage(chat: int)
      modifies this`calls
      ensures calls == old(calls) + PreviousDeletion(Snapshot(), chat, false)
    {
      var key := Chid(chat);
      if key in lastBotMsg {
        calls := calls + [DeleteCall(chat, lastBotMsg[key])];
      }
    }

    /** `send_message`: returns the id of the new message. */
    method SendMessage(chat: int, text: string, track: bool, bucket: Bucket, suppressDelete: bool) returns (id: int)
      modifies this
      ensures id == old(nextId) && nextId == old(nextId) + 1
      ensures calls == old(calls) + PreviousDeletion(old(Snapshot()), chat, suppressDelete) + [SendCall(chat, text, id)]
      ensures Snapshot() == AfterSend(old(Snapshot()), chat, id, track, bucket, suppressDelete)
    {
      if !suppressDelete {
        DeletePreviousMessage(chat);
      }
      id := nextId;
      nextId := nextId + 1;
      calls := calls + [SendCall(chat, text, id)];
      var key := Chid(chat);
      if !suppressDelete {
        lastBotMsg := lastBotMsg[key := id];
      }
      if track {
        match bucket
        case Rec => recMsgs := recMsgs[key := ListAt(recMsgs, key) + [id]];
        case Bus => busMsgs := busMsgs[key := ListAt(busMsgs, key) + [id]];
      }
    }

    /** `send_message` with the arguments `o`, as one more send of a series. */
    method Emit(chat: int, o: Outgoing, ghost b0: Books, ghost c0: seq<ApiCall>, ghost id0: int, ghost sent: seq<Outgoing>)
      requires SentSoFar(this, chat, b0, c0, id0, sent)
      modifies this
      ensures SentSoFar(this, chat, b0, c0, id0, sent + [o])
    {
      var _ := SendMessage(chat, o.text, o.track, o.bucket, o.suppressDelete);
      assert (sent + [o])[..|sent|] == sent;
    }

    /** `send_message` for each of `outs`, in order. */
    method SendEach(chat: int, outs: seq<Outgoing>, ghost b0: Books, ghost c0: seq<ApiCall>, ghost id0: int, ghost sent: seq<Outgoing>)
      requires SentSoFar(this, chat, b0, c0, id0, sent)
      modifies this
      ensures SentSoFar(this, chat, b0, c0, id0, sent + outs)
    {
      var i := 0;
      assert sent + outs[..0] == sent;
      while i < |outs|
        invariant 0 <= i <= |outs|
        invariant SentSoFar(this, chat, b0, c0, id0, sent + outs[..i])
      {
        Emit(chat, outs[i], b0, c0, id0, sent + outs[..i]);
        assert sent + outs[..i + 1] == (sent + outs[..i]) + [outs[i]];
        i := i + 1;
      }
      assert outs[..i] == outs;
    }

    /** `send_recommender_clear_button`. */
    method SendRecommenderClearButton(chat: int)
      modifies this
      ensures nextId == old(nextId) + 1
      ensures calls == old(calls) + [SendCall(chat, RecommenderClearText, old(nextId))]
      ensures Snapshot() == AfterSend(old(Snapshot()), chat, old(nextId), true, Rec, true)
    {
      var _ := SendMessage(chat, RecommenderClearText, true, Rec, true);
    }

    /** `clear_recommender_messages` and, for `Bus`,
        `clear_transport_messages` (lib/bot/transport.rb), which does the same
        with the other list. */
    method ClearTracked(bucket: Bucket, chat: int)
      modifies this
      ensures calls == old(calls) + DeleteCalls(chat, old(Snapshot()).Tracked(bucket, chat))
      ensures Snapshot() == AfterClear(old(Snapshot()), bucket, chat)
      ensures nextId == old(nextId)
    {
      var key := Chid(chat);
      var ids := Snapshot().Tracked(bucket, chat);
      if ids == [] {
        return;
      }
      var i := 0;
      while i < |ids|
        invariant 0 <= i <= |ids|
        invariant calls == old(calls) + DeleteCalls(chat, ids[..i])
        invariant Snapshot() == old(Snapshot()) && nextId == old(nextId)
      {
        calls := calls + [DeleteCall(chat, ids[i])];
        assert DeleteCalls(chat, ids[..i + 1]) == DeleteCalls(chat, ids[..i]) + [DeleteCall(chat, ids[i])];
        i := i + 1;
      }
      assert ids[..i] == ids;
      match bucket
      case Rec => recMsgs := recMsgs[key := []];
      case Bus => busMsgs := busMsgs[key := []];
    }
  }

  // ---------------------------------------------------------------------------
  // Several sends in a row

  /** One `send_message` call, by its arguments. */
  datatype Outgoing = Outgoing(text: string, track: bool, bucket: Bucket, suppressDelete: bool)

  /** `send_message(bot, chat_id, text)` with no options, for each text:
      untracked, and each deleting the message before it. */
  function Plain(texts: seq<string>): (r: seq<Outgoing>)
    ensures |r| == |texts|
    ensures forall i :: 0 <= i < |texts| ==> r[i] == Outgoing(texts[i], false, Rec, false)
  {
    seq(|texts|, i requires 0 <= i < |texts| => Outgoing(texts[i], false, Rec, false))
  }

  /** The maps after the sends `outs` to one chat, the first getting id
      `firstId` and each next one the following id. */
  function AfterSends(b: Books, chat: int, firstId: int, outs: seq<Outgoing>): Books
    decreases |outs|
  {
    if outs == [] then b
    else
      var init, o := outs[..|outs| - 1], outs[|outs| - 1];
      AfterSend(AfterSends(b, chat, firstId, init), chat, firstId + |init|, o.track, o.bucket, o.suppressDelete)
  }

  /** The API calls those sends make. */
  function CallsOfSends(b: Books, chat: int, firstId: int, outs: seq<Outgoing>): seq<ApiCall>
    decreases |outs|
  {
    if outs == [] then []
    else
      var init, o := outs[..|outs| - 1], outs[|outs| - 1];
      CallsOfSends(b, chat, firstId, init)
        + PreviousDeletion(AfterSends(b, chat, firstId, init), chat, o.suppressDelete)
        + [SendCall(chat, o.text, firstId + |init|)]
  }

  /** The ids `from`, `from + 1`, ..., `from + n - 1`. */
  function Ids(from: int, n: nat): (r: seq<int>)
    ensures |r| == n && forall i :: 0 <= i < n ==> r[i] == from + i
  {
    seq(n, i requires 0 <= i < n => from + i)
  }

  /** When every send is tracked in `bucket`, that chat's list grows by the
      new ids, in order, and every other chat's lists stay as they were. */
  lemma {:induction false} AfterSendsTracked(b: Books, chat: int, other: int, firstId: int, outs: seq<Outgoing>, bucket: Bucket)
    requires forall i :: 0 <= i < |outs| ==> outs[i].track && outs[i].bucket == bucket
    ensures AfterSends(b, chat, firstId, outs).Tracked(bucket, chat) == b.Tracked(bucket, chat) + Ids(firstId, |outs|)
    ensures other != chat ==> AfterSends(b, chat, firstId, outs).Tracked(bucket, other) == b.Tracked(bucket, other)
    decreases |outs|
  {
    if outs != [] {
      var init, o := outs[..|outs| - 1], outs[|outs| - 1];
      var mid := AfterSends(b, chat, firstId, init);
      AfterSendsTracked(b, chat, other, firstId, init, bucket);
      SendTracksOwnList(mid, chat, other, firstId + |init|, o.track, o.bucket, o.suppressDelete, bucket);
      assert Ids(firstId, |outs|) == Ids(firstId, |init|) + [firstId + |init|];
    }
  }

  /** What the messenger looks like after the sends `sent`, counted from the
      snapshot `b0`, the call log `c0` and the id `id0`. */
  predicate SentSoFar(m: Messenger, chat: int, b0: Books, c0: seq<ApiCall>, id0: int, sent: seq<Outgoing>)
    reads m
  {
    && m.Snapshot() == AfterSends(b0, chat, id0, sent)
    && m.calls == c0 + CallsOfSends(b0, chat, id0, sent)
    && m.nextId == id0 + |sent|
  }

  const RecommenderClearText: string := "Recommender tests finished. You can clear them below."

  // ---------------------------------------------------------------------------
  // with_chunks

  /** The texts the chunk loop hands to `send_message`, given the lines still
      to visit and the chunk built so far: a chunk is flushed before a line
      that would take it past `limit`, and a final non-empty chunk is sent.
      `flushEmpty` keeps the source's behaviour of flushing even an empty
      chunk; without it an empty chunk is never flushed, so no text sent is
      empty. */
  function ChunksFrom(lines: seq<string>, chunk: string, limit: nat, flushEmpty: bool): (r: seq<string>)
    ensures !flushEmpty ==> "" !in r
    decreases |lines|
  {
    if lines == [] then
      if chunk == "" then [] else [chunk]
    else
      var line := lines[0];
      if |chunk| + |line| + 1 > limit && (flushEmpty || chunk != "") then
        [chunk] + ChunksFrom(lines[1..], line, limit, flushEmpty)
      else
        ChunksFrom(lines[1..], if chunk == "" then line else chunk + "\n" + line, limit, flushEmpty)
  }

  /** `with_chunks`: the whole text as one message when it fits, otherwise the
      chunks. Without the empty flush no text is empty unless the whole text
      is. */
  function ChunkTexts(lines: seq<string>, limit: nat, flushEmpty: bool): (r: seq<string>)
    ensures !flushEmpty && Join(lines, "\n") != "" ==> "" !in r
  {
    var text := Join(lines, "\n");
    if |text| <= limit then [text] else ChunksFrom(lines, "", limit, flushEmpty)
  }

  /** One step of the chunk loop, as the loop body takes it: flush the chunk
      when the line would take it past the limit, then append the line. */
  lemma ChunksFromStep(rest: seq<string>, chunk: string, limit: nat, flushEmpty: bool)
    requires rest != []
    ensures var flush := (flushEmpty || chunk != "") && |chunk| + |rest[0]| + 1 > limit;
      var c := if flush then "" else chunk;
      ChunksFrom(rest, chunk, limit, flushEmpty)
        == (if flush then [chunk] else []) + ChunksFrom(rest[1..], if c == "" then rest[0] else c + "\n" + rest[0], limit, flushEmpty)
  {
  }

  /** `with_chunks`: the texts it sends, in order. With `flushEmpty` it is
      the loop as written, which flushes even an empty chunk; without it, the
      corrected loop (see the findings). */
  method WithChunks(lines: seq<string>, flushEmpty: bool) returns (texts: seq<string>)
    ensures texts == ChunkTexts(lines, TelegramMaxCharsLimit, flushEmpty)
  {
    var text := Join(lines, "\n");
    if |text| <= TelegramMaxCharsLimit {
      return [text];
    }
    texts := ChunkLoop(lines, TelegramMaxCharsLimit, flushEmpty);
  }

  /** The `lines.each` loop of `with_chunks` and its final flush. */
  method ChunkLoop(lines: seq<string>, limit: nat, flushEmpty: bool) returns (texts: seq<string>)
    ensures texts == ChunksFrom(lines, "", limit, flushEmpty)
  {
    texts := [];
    var chunk := "";
    var i := 0;
    while i < |lines|
      invariant 0 <= i <= |lines|
      invariant texts + ChunksFrom(lines[i..], chunk, limit, flushEmpty) == ChunksFrom(lines, "", limit, flushEmpty)
    {
      var line := lines[i];
      ghost var rest, sent, c := lines[i..], texts, chunk;
      assert rest[0] == line && rest[1..] == lines[i + 1..];
      ChunksFromStep(rest, chunk, limit, flushEmpty);
      if (flushEmpty || chunk != "") && |chunk| + |line| + 1 > limit {
        texts := texts + [chunk];
        chunk := "";
      }
      chunk := if chunk == "" then line else chunk + "\n" + line;
      i := i + 1;
      assert texts + ChunksFrom(lines[i..], chunk, limit, flushEmpty) == sent + ChunksFrom(rest, c, limit, flushEmpty);
    }
    assert lines[i..] == [];
    if chunk != "" {
      texts := texts + [chunk];
    }
  }

  /** If the chunk so far and every line fit, every text sent fits. */
  lemma {:induction false} ChunksFromBounded(lines: seq<string>, chunk: string, limit: nat, flushEmpty: bool)
    requires |chunk| <= limit
    requires forall i :: 0 <= i < |lines| ==> |lines[i]| <= limit
    ensures forall t :: t in ChunksFrom(lines, chunk, limit, flushEmpty) ==> |t| <= limit
  {
    if lines != [] {
      var line := lines[0];
      var next := if |chunk| + |line| + 1 > limit && (flushEmpty || chunk != "") then line
                  else if chunk == "" then line else chunk + "\n" + line;
      ChunksFromBounded(lines[1..], next, limit, flushEmpty);
    }
  }

  /** When every line is at most the limit, no text `with_chunks` sends
      exceeds it (with or without the empty flush). */
  lemma ChunksWithinLimit(lines: seq<string>, limit: nat, flushEmpty: bool)
    requires forall i :: 0 <= i < |lines| ==> |lines[i]| <= limit
    ensures forall t :: t in ChunkTexts(lines, limit, flushEmpty) ==> |t| <= limit
  {
    ChunksFromBounded(lines, "", limit, flushEmpty);
  }

  /** Without the empty flush, the chunks joined with "\n" give back the chunk
      so far followed by the remaining lines, when no line is empty. */
  lemma {:induction false} ChunksFromJoin(lines: seq<string>, chunk: string, limit: nat)
    requires forall i :: 0 <= i < |lines| ==> lines[i] != ""
    ensures ChunksFrom(lines, chunk, limit, false) == [] <==> chunk == "" && lines == []
    ensures Join(ChunksFrom(lines, chunk, limit, false), "\n")
         == if chunk == "" then Join(lines, "\n")
            else if lines == [] then chunk
            else chunk + "\n" + Join(lines, "\n")
  {
    if lines != [] {
      var line, rest := lines[0], lines[1..];
      assert lines == [line] + rest;
      if rest != [] {
        JoinCons(line, rest, "\n");
      }
      if |chunk| + |line| + 1 > limit && chunk != "" {
        ChunksFromJoin(rest, line, limit);
        JoinCons(chunk, ChunksFrom(rest, line, limit, false), "\n");
      } else {
        var next := if chunk == "" then line else chunk + "\n" + line;
        ChunksFromJoin(rest, next, limit);
      }
    }
  }

  /** Without the empty flush, joining the sent texts with "\n" gives exactly
      the lines joined with "\n", whenever no line is empty. */
  lemma ChunksRoundTrip(lines: seq<string>, limit: nat)
    requires forall i :: 0 <= i < |lines| ==> lines[i] != ""
    ensures Join(ChunkTexts(lines, limit, false), "\n") == Join(lines, "\n")
  {
    ChunksFromJoin(lines, "", limit);
  }

  /** As written, a first line as long as the limit makes `with_chunks` send
      an empty message before it; so the sent texts no longer join back to
      the text. */
  lemma EmptyChunkFlushed(line: string, rest: seq<string>, limit: nat)
    requires limit >= 1 && |line| >= limit && '\n' !in line && |rest| >= 1
    ensures ChunkTexts([line] + rest, limit, true)[0] == ""
    ensures Join(ChunkTexts([line] + rest, limit, true), "\n") != Join([line] + rest, "\n")
  {
    var lines := [line] + rest;
    JoinCons(line, rest, "\n");
    assert lines[0] == line && lines[1..] == rest;
    var after := ChunksFrom(rest, line, limit, true);
    assert ChunkTexts(lines, limit, true) == [""] + after;
    FirstChunkStart(rest, line, limit);
    JoinCons("", after, "\n");
    assert Join(ChunkTexts(lines, limit, true), "\n") == "\n" + Join(after, "\n");
    assert Join(lines, "\n")[0] == line[0];
  }

  /** Helper for `EmptyChunkFlushed`: from a non-empty chunk the first text
      sent starts with that chunk's first character. */
  lemma {:induction false} FirstChunkStart(lines: seq<string>, chunk: string, limit: nat)
    requires chunk != ""
    ensures var r := ChunksFrom(lines, chunk, limit, true);
      r != [] && r[0] != "" && r[0][0] == chunk[0]
  {
    if lines != [] {
      var line := lines[0];
      if |chunk| + |line| + 1 <= limit {
        FirstChunkStart(lines[1..], chunk + "\n" + line, limit);
      }
    }
  }
}
