/**
 * The Linux implementation of the OS capability (src/linux_control.rs).
 *
 * The login banner is a dconf override file for GDM. Its text is built from
 * the message with every single quote preceded by a backslash; backslashes
 * themselves are left as they are, so a message that ends in a backslash
 * escapes the closing quote of the banner text. The host's file system and
 * the external commands it runs (`wall`, `dconf update`,
 * `systemctl reboot`, `systemctl poweroff`) are the state of a LinuxHost;
 * how each command ends is a parameter of the call.
 */
module LinuxControl {
  import opened Base

  /** The dconf override file that holds the GDM banner settings. */
  const OverridePath: string := "/etc/dconf/db/gdm.d/01-warn-message"

  const Header: string := "[org/gnome/login-screen]\n"

  /** Everything the enabled banner file holds before the escaped message. */
  const EnabledPrefix: string := Header + "banner-message-enable=true\nbanner-message-text='"

  /** What the enabled banner file holds after the escaped message. */
  const EnabledSuffix: string := "'\n"

  /** The whole banner file when the banner is switched off. */
  const DisabledContent: string := Header + "banner-message-enable=false\n"

  /** The warning interval `LinuxControl::new` sets: one hour. */
  const DefaultWarnInterval: nat := 3600

  /** `msg.replace('\'', "\\'")`. */
  function Escape(msg: string): (r: string)
    ensures |r| == |msg| + multiset(msg)['\'']
  {
    if msg == [] then []
    else
      assert msg == [msg[0]] + msg[1..];
      (if msg[0] == '\'' then ['\\', '\''] else [msg[0]]) + Escape(msg[1..])
  }

  /** Removes the character in front of every single quote. */
  function Unescape(s: string): string
  {
    if |s| <= 1 then s
    else (if s[1] == '\'' then [] else [s[0]]) + Unescape(s[1..])
  }

  lemma {:induction false} EscapeAppend(a: string, b: string)
    ensures Escape(a + b) == Escape(a) + Escape(b)
  {
    if a == [] {
      assert a + b == b;
    } else {
      assert (a + b)[0] == a[0];
      assert (a + b)[1..] == a[1..] + b;
      EscapeAppend(a[1..], b);
    }
  }

  /** Every single quote of `s` directly follows a backslash. */
  ghost predicate QuotesFollowBackslash(s: string) {
    forall i :: 0 <= i < |s| && s[i] == '\'' ==> i >= 1 && s[i - 1] == '\\'
  }

  /** Every single quote of an escaped message directly follows a backslash. */
  lemma {:induction false} EscapedQuotesFollowBackslash(msg: string)
    ensures QuotesFollowBackslash(Escape(msg))
  {
    if msg != [] {
      EscapedQuotesFollowBackslash(msg[1..]);
      var head := if msg[0] == '\'' then ['\\', '\''] else [msg[0]];
      var rest := Escape(msg[1..]);
      var r := head + rest;
      assert Escape(msg) == r;
      forall i | 0 <= i < |r| && r[i] == '\'' ensures i >= 1 && r[i - 1] == '\\' {
        if i >= |head| {
          var j := i - |head|;
          assert rest[j] == '\'';
          assert r[i - 1] == rest[j - 1];
        } else if msg[0] == '\'' {
          assert r[i - 1] == head[0];
        }
      }
    }
  }

  /** An escaped message never starts with a single quote. */
  lemma EscapeStartsWithoutQuote(msg: string)
    ensures Escape(msg) == [] || Escape(msg)[0] != '\''
  {
    if msg != [] {
      var head := if msg[0] == '\'' then ['\\', '\''] else [msg[0]];
      assert Escape(msg) == head + Escape(msg[1..]);
      assert Escape(msg)[0] == head[0];
    }
  }

  /** A message without single quotes is written unchanged, backslashes
      included. */
  lemma {:induction false} EscapeWithoutQuotes(msg: string)
    requires '\'' !in msg
    ensures Escape(msg) == msg
  {
    if msg != [] {
      var tail := msg[1..];
      assert msg == [msg[0]] + tail;
      assert msg[0] != '\'' && '\'' !in tail;
      EscapeWithoutQuotes(tail);
      assert Escape(msg) == [msg[0]] + Escape(tail);
    }
  }

  /** Unescape keeps a character that is not followed by a quote. */
  lemma UnescapeKeeps(c: char, rest: string)
    requires rest == [] || rest[0] != '\''
    ensures Unescape([c] + rest) == [c] + Unescape(rest)
  {
    if rest != [] {
      assert ([c] + rest)[1] == rest[0];
      assert ([c] + rest)[1..] == rest;
    }
  }

  /** Unescape drops the backslash of an escaped quote. */
  lemma UnescapeDropsBackslash(rest: string)
    requires rest == [] || rest[0] != '\''
    ensures Unescape(['\\', '\''] + rest) == ['\''] + Unescape(rest)
  {
    var s := ['\\', '\''] + rest;
    assert s[1] == '\'' && s[1..] == ['\''] + rest;
    UnescapeKeeps('\'', rest);
  }

  /** Dropping the character before each single quote undoes the escaping. */
  lemma {:induction false} UnescapeEscape(msg: string)
    ensures Unescape(Escape(msg)) == msg
  {
    if msg != [] {
      var rest := Escape(msg[1..]);
      UnescapeEscape(msg[1..]);
      EscapeStartsWithoutQuote(msg[1..]);
      if msg[0] == '\'' {
        assert Escape(msg) == ['\\', '\''] + rest;
        UnescapeDropsBackslash(rest);
      } else {
        assert Escape(msg) == [msg[0]] + rest;
        UnescapeKeeps(msg[0], rest);
      }
      assert msg == [msg[0]] + msg[1..];
    }
  }

  /** The content `set_login_banner` writes to the override file. */
  function BannerContent(message: Option<string>): (c: string)
    ensures message.Some? ==>
              |c| == |EnabledPrefix| + |message.value| + multiset(message.value)['\''] + |EnabledSuffix|
  {
    match message
    case Some(msg) => EnabledPrefix + Escape(msg) + EnabledSuffix
    case None => DisabledContent
  }

  /** Reads the banner setting back from the content of the override file. */
  function ParseBanner(content: string): Option<Option<string>>
  {
    if content == DisabledContent then Some(None)
    else if |content| >= |EnabledPrefix| + |EnabledSuffix|
            && content[..|EnabledPrefix|] == EnabledPrefix
            && content[|content| - |EnabledSuffix|..] == EnabledSuffix
    then Some(Some(Unescape(content[|EnabledPrefix|..|content| - |EnabledSuffix|])))
    else None
  }

  /** Both kinds of banner file begin with the login-screen header line, and
      the model's reader ParseBanner gives back the banner that was set. This
      is about ParseBanner, which cuts the fixed prefix and suffix off by
      position; dconf itself reads a message that ends in a backslash or
      holds a line break differently. */
  lemma BannerContentRoundTrip(message: Option<string>)
    ensures var content := BannerContent(message);
            && |content| > |Header|
            && content[..|Header|] == Header
            && ParseBanner(content) == Some(message)
  {
    match message
    case None =>
      assert DisabledContent[..|Header|] == Header;
    case Some(msg) =>
      ParseEnabled(Escape(msg));
      UnescapeEscape(msg);
  }

  /** The enabled file is told apart from the disabled one, starts with the
      header, and its body between the fixed prefix and suffix is unescaped. */
  lemma ParseEnabled(body: string)
    ensures var content := EnabledPrefix + body + EnabledSuffix;
            && content[..|Header|] == Header
            && ParseBanner(content) == Some(Some(Unescape(body)))
  {
    var content := EnabledPrefix + body + EnabledSuffix;
    assert content[..|EnabledPrefix|] == EnabledPrefix;
    assert content[..|Header|] == Header by {
      assert EnabledPrefix[..|Header|] == Header;
    }
    assert content != DisabledContent by {
      assert content[|Header| + 22] == 't';
      assert DisabledContent[|Header| + 22] == 'f';
    }
    assert content[|content| - |EnabledSuffix|..] == EnabledSuffix;
    assert content[|EnabledPrefix|..|content| - |EnabledSuffix|] == body;
  }

  /** Backslashes are not escaped: for a message ending in a backslash the
      closing quote of the banner text is preceded by a backslash, which
      dconf reads as an escaped quote. */
  lemma TrailingBackslashEscapesClosingQuote(msg: string)
    requires |msg| >= 1 && msg[|msg| - 1] == '\\'
    ensures var content := BannerContent(Some(msg));
            content[|content| - 2] == '\'' && content[|content| - 3] == '\\'
  {
    assert msg == msg[..|msg| - 1] + ['\\'];
    EscapeAppend(msg[..|msg| - 1], ['\\']);
    assert Escape(['\\']) == ['\\'];
  }

  /** The result of `set_login_banner` once the file is written: the exit
      status of `dconf update` decides it. */
  function DconfOutcome(status: Option<ExitStatus>): (r: Outcome)
    ensures r == Pass <==> status.Some? && status.value == Exited(0)
    ensures status.None? ==> r == Fail(CommandSpawnFailed)
  {
    match status
    case None => Fail(CommandSpawnFailed)
    case Some(s) => if s.Success() then Pass else Fail(CommandFailed(s))
  }

  /** The external commands the host is asked to run. */
  datatype Command = Wall(message: string) | DconfUpdate | SystemctlReboot | SystemctlPoweroff

  /** A Linux machine as `LinuxControl` drives it. */
  class LinuxHost {
    const interval: nat := DefaultWarnInterval
    var files: map<string, string>
    var commands: seq<Command>

    /** `LinuxControl::new`, on a machine whose files are `files`. */
    constructor (files: map<string, string>)
      ensures WarnInterval() == DefaultWarnInterval
      ensures this.files == files && commands == []
    {
      this.files := files;
      commands := [];
    }

    /** `warn_interval`: the interval `new` fixed. */
    function WarnInterval(): (d: nat)
      ensures d == DefaultWarnInterval
    {
      interval
    }

    /** `show_warning`: runs `wall` with the message; how it ends is ignored. */
    method ShowWarning(message: string, status: Option<ExitStatus>)
      modifies this
      ensures commands == old(commands) + [Wall(message)]
      ensures files == old(files)
    {
      commands := commands + [Wall(message)];
    }

    /** `set_login_banner`: writes the override file (`writeOk` tells whether
        the write succeeds) and then runs `dconf update`, which ends with
        `dconf` (None when it cannot be started). */
    method SetLoginBanner(message: Option<string>, writeOk: bool, dconf: Option<ExitStatus>)
      returns (r: Outcome)
      modifies this
      ensures !writeOk ==> r == Fail(BannerWriteFailed) && files == old(files) && commands == old(commands)
      ensures writeOk ==> files == old(files)[OverridePath := BannerContent(message)]
      ensures writeOk ==> commands == old(commands) + [DconfUpdate] && r == DconfOutcome(dconf)
    {
      var content;
      if message.Some? {
        content := EnabledPrefix + Escape(message.value) + EnabledSuffix;
      } else {
        content := DisabledContent;
      }
      if !writeOk {
        return Fail(BannerWriteFailed);
      }
      files := files[OverridePath := content];

      commands := commands + [DconfUpdate];
      if dconf.None? {
        return Fail(CommandSpawnFailed);
      }
      if !dconf.value.Success() {
        return Fail(CommandFailed(dconf.value));
      }
      r := Pass;
    }

    /** `reboot`: runs `systemctl reboot` and reports Ok(()) however it ends. */
    method Reboot(status: Option<ExitStatus>) returns (r: Outcome)
      modifies this
      ensures r == Pass
      ensures commands == old(commands) + [SystemctlReboot] && files == old(files)
    {
      commands := commands + [SystemctlReboot];
      r := Pass;
    }

    /** `shutdown`: runs `systemctl poweroff` and reports Ok(()) however it ends. */
    method Shutdown(status: Option<ExitStatus>) returns (r: Outcome)
      modifies this
      ensures r == Pass
      ensures commands == old(commands) + [SystemctlPoweroff] && files == old(files)
    {
      commands := commands + [SystemctlPoweroff];
      r := Pass;
    }
  }
}
