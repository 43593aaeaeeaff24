/** The Discord message parse_item posts for a new post. */
module Embed {
  import opened Wrappers
  import opened Civil
  import opened CreatedAt
  import opened Timestamp
  import opened Weibo

  const Title: string := "塔菲の新微博喵~"
  const Url: string := "https://weibo.com/7618923072?refer_flag=1001030103_"
  /** The embed colour, 0xFF69B4. */
  const Color := 16738740

  datatype EmbedRecord = EmbedRecord(title: string, url: string, description: string, color: int, timestamp: string)

  /** The JSON body `{"embeds": [...]}`. */
  datatype Message = Message(embeds: seq<EmbedRecord>)

  /** The message for `item`, or the error strptime or astimezone raises on its `created_at`. */
  function BuildMessage(item: Item): Result<Message, ConvertError> {
    var stamp :- DiscordTimestamp(item.createdAt);
    Success(Message([EmbedRecord(Title, Url, item.textRaw, Color, stamp)]))
  }

  /**
   * A message is built exactly when the timestamp converts.  It holds one
   * embed with the fixed title, link and colour, the post's raw text as its
   * description, and a timestamp that reads back as the +08:00 wall-clock
   * time of the very instant `created_at` names.
   */
  lemma BuildMessageContents(item: Item)
    ensures BuildMessage(item).Success? <==> DiscordTimestamp(item.createdAt).Success?
    ensures BuildMessage(item).Success? ==>
      var m := BuildMessage(item).value;
      |m.embeds| == 1 && m.embeds[0].title == Title && m.embeds[0].url == Url
      && m.embeds[0].description == item.textRaw && m.embeds[0].color == 16738740
      && exists z: Zoned, t: DateTime ::
           ParseCreatedAt(item.createdAt) == Some(z) && ParseTimestamp(m.embeds[0].timestamp) == Some(t)
           && Instant(t, TargetOffset) == Instant(z.local, z.offset)
  {
    if BuildMessage(item).Success? {
      var z := ParseCreatedAt(item.createdAt).value;
      var t := ToTarget(z).value;
      ToTargetKeepsInstant(z);
      ParseFormat(t);
    }
  }
}
