/** The strings the program hands to libcurl and to system(): the channel page
    address, the desktop notification command and the media player command. */
module Commands {
  import opened CLib

  /** Base address of a channel page. */
  const Address: string := "https://www.twitch.tv/"
  /** The notification command around the streamer's name. */
  const NotifyCommand: string := "notify-send \""
  const NotifyMessage: string := " is live\""
  /** The player and its options. */
  const PlayerOptions: string := "mpv " + "--force-seekable=yes " + "--speed=1 " + "--really-quiet "
  /** The fixed start of the player command, up to the opening quote and the
      page address: "mpv --force-seekable=yes --speed=1 --really-quiet \"https://www.twitch.tv/". */
  const PlayerStart: string := PlayerOptions + "\"" + Address

  /** The page requested for a streamer. */
  function Url(name: string): string
  {
    Address + name
  }

  /** The command run when a streamer goes live. */
  function NotificationText(name: string): string
  {
    NotifyCommand + name + NotifyMessage
  }

  /** The command that plays a streamer's stream. */
  function PlayerCommand(name: string): string
  {
    PlayerStart + name + "\""
  }

  /** The URL buffer: the address, then the name, each copied by a loop index
      by index, then a NUL. The allocation holds the terminator (see
      UrlAllocAsWritten). */
  method BuildUrl(name: string) returns (url: array<char>)
    ensures url[..] == Url(name) + [NUL]
  {
    var a := |Address|;
    var n := a + |name|;
    url := new char[n + 1];
    MemCpy(url, 0, Address);
    MemCpy(url, a, name);
    assert url[..n] == Address + name by {
      assert url[..n] == url[..a] + url[a..n];
    }
    url[n] := NUL;
    assert url[..] == url[..n] + [url[n]];
  }

  /** The notification buffer: strcpy of the command, strcat of the name and
      of the message, which leaves a NUL after them. The allocation holds the
      NUL (see NotificationAllocAsWritten). */
  method BuildNotification(name: string) returns (notification: array<char>)
    ensures notification[..] == NotificationText(name) + [NUL]
  {
    var a, b := |NotifyCommand|, |NotifyCommand| + |name|;
    var c := b + |NotifyMessage|;
    notification := new char[c + 1];
    MemCpy(notification, 0, NotifyCommand);
    assert notification[..a] == NotifyCommand;
    MemCpy(notification, a, name);
    assert notification[..b] == NotifyCommand + name by {
      assert notification[..b] == notification[..a] + notification[a..b];
    }
    MemCpy(notification, b, NotifyMessage);
    assert notification[..c] == NotifyCommand + name + NotifyMessage by {
      assert notification[..c] == notification[..b] + notification[b..c];
    }
    notification[c] := NUL;
    assert notification[..] == notification[..c] + [notification[c]];
  }

  /** The player command buffer: the fixed start and the name, each copied by
      a loop index by index, then a closing quote and a NUL. The allocation
      holds both (see PlayerAllocAsWritten). */
  method BuildPlayerCommand(name: string) returns (out: array<char>)
    ensures out[..] == PlayerCommand(name) + [NUL]
  {
    var a := |PlayerStart|;
    var n := a + |name|;
    out := new char[n + 2];
    MemCpy(out, 0, PlayerStart);
    MemCpy(out, a, name);
    assert out[..n] == PlayerStart + name by {
      assert out[..n] == out[..a] + out[a..n];
    }
    out[n] := '"';
    out[n + 1] := NUL;
    assert out[..] == out[..n] + [out[n], out[n + 1]];
  }

  /** What curl is handed is exactly the channel page of the streamer, and the
      name can be read back from it. */
  lemma UrlAsCString(name: string)
    requires NUL !in name
    ensures CStr(Url(name) + [NUL]) == Url(name)
    ensures Url(name)[..|Address|] == Address && Url(name)[|Address|..] == name
  {
    assert NUL !in Address;
    CStrOfTerminated(Url(name));
  }

  /** What system() runs when a streamer goes live is exactly the notification
      text, which carries the streamer's name. */
  lemma NotificationAsCString(name: string)
    requires NUL !in name
    ensures CStr(NotificationText(name) + [NUL]) == NotificationText(name)
    ensures NotificationText(name)[|NotifyCommand|..|NotifyCommand| + |name|] == name
  {
    assert NUL !in NotifyCommand && NUL !in NotifyMessage;
    CStrOfTerminated(NotificationText(name));
  }

  /** The player is pointed at the very page that was requested for the
      streamer, in double quotes. */
  lemma PlayerOpensRequestedPage(name: string)
    requires NUL !in name
    ensures PlayerCommand(name) == PlayerOptions + "\"" + Url(name) + "\""
    ensures CStr(PlayerCommand(name) + [NUL]) == PlayerCommand(name)
  {
    assert NUL !in PlayerOptions && NUL !in Address;
    CStrOfTerminated(PlayerCommand(name));
  }

  // The allocation sizes as source/main.c writes them.

  /** Line 121: room for the address and the name, none for the NUL. */
  function UrlAllocAsWritten(name: string): nat
  {
    |Address| + |name|
  }

  /** Line 45: room for the three parts, none for the NUL that strcat writes. */
  function NotificationAllocAsWritten(name: string): nat
  {
    |NotifyCommand| + |name| + |NotifyMessage|
  }

  /** Line 93: room for the start, the name and the closing quote, none for the NUL. */
  function PlayerAllocAsWritten(name: string): nat
  {
    |PlayerStart| + |name| + 1
  }

  /** Line 121 for every name: the terminated URL is one byte longer than
      the buffer; the NUL of line 128 lands just past its end. */
  lemma UrlAllocOneShort(name: string)
    ensures |Url(name) + [NUL]| == UrlAllocAsWritten(name) + 1
  {
  }

  /** Line 45 for every name: strcat's NUL lands just past the end of the array. */
  lemma NotificationAllocOneShort(name: string)
    ensures |NotificationText(name) + [NUL]| == NotificationAllocAsWritten(name) + 1
  {
  }

  /** Line 93 for every name: the NUL of line 101 lands just past the end of the buffer. */
  lemma PlayerAllocOneShort(name: string)
    ensures |PlayerCommand(name) + [NUL]| == PlayerAllocAsWritten(name) + 1
  {
  }
}
