/** The two link filters of tools/browser-userscripts/src/timeline-batch.js.

    A URL is the record that the URL library parses it into; as in the WHATWG URL Standard
    its path is a list of segments, so "/c/one/" is ["c", "one", ""]. Printing a URL and
    parsing the text again is taken to give the same record back. */
module TimelineUrl {
  import opened Outcomes

  datatype Provider = ChatGPT | Claude | Gemini | Grok | Unsupported

  datatype Url = Url(protocol: string, host: string, username: string, password: string,
                     path: seq<string>, search: string, hash: string)

  /** An href as resolved against the provider's origin, None where resolving throws. */
  type Link = Option<Url>

  datatype Ref = Ref(id: string, url: Url)

  function Host(provider: Provider): string
  {
    match provider
    case ChatGPT => "chatgpt.com"
    case Claude => "claude.ai"
    case Gemini => "gemini.google.com"
    case Grok => "grok.com"
    case Unsupported => ""
  }

  predicate IsDigit(c: char)
  {
    '0' <= c <= '9'
  }

  predicate IsWord(s: string)
  {
    s != "" && forall i :: 0 <= i < |s| ==>
      'a' <= s[i] <= 'z' || 'A' <= s[i] <= 'Z' || IsDigit(s[i]) || s[i] == '_' || s[i] == '-'
  }

  predicate IsNumber(s: string)
  {
    s != "" && forall i :: 0 <= i < |s| ==> IsDigit(s[i])
  }

  /** The path without one trailing slash. */
  function WithoutSlash(path: seq<string>): seq<string>
  {
    if |path| > 0 && path[|path| - 1] == "" then path[..|path| - 1] else path
  }

  predicate ConversationPath(provider: Provider, path: seq<string>)
  {
    match provider
    case ChatGPT =>
      (|path| == 2 && path[0] == "c" && IsWord(path[1]))
      || (|path| == 4 && path[0] == "g" && path[1] != "" && path[2] == "c" && IsWord(path[3]))
    case Claude => |path| == 2 && path[0] == "chat" && IsWord(path[1])
    case Gemini =>
      (|path| == 2 && path[0] == "app" && IsWord(path[1]))
      || (|path| == 4 && path[0] == "u" && IsNumber(path[1]) && path[2] == "app" && IsWord(path[3]))
    case Grok => |path| == 2 && path[0] == "c" && IsWord(path[1])
    case Unsupported => false
  }

  predicate CollectionPath(path: seq<string>)
  {
    (|path| == 1 && path[0] in {"project", "projects", "archived", "archived-chats", "archive", "recents", "history"})
    || (|path| == 2 && path[0] in {"project", "projects", "g"} && IsWord(path[1]))
    || (|path| == 3 && path[0] == "g" && IsWord(path[1]) && path[2] == "project")
  }

  predicate OwnSite(provider: Provider, url: Url)
  {
    provider != Unsupported
    && url.protocol == "https:" && url.host == Host(provider) && url.username == "" && url.password == ""
  }

  function Canonical(url: Url): Url
  {
    Url(url.protocol, url.host, "", "", WithoutSlash(url.path), "", "")
  }

  function BatchConversation(provider: Provider, href: Link): Option<Ref>
  {
    if href.None? then None
    else
      var path := WithoutSlash(href.value.path);
      if !OwnSite(provider, href.value) || !ConversationPath(provider, path) then None
      else Some(Ref(path[|path| - 1], Canonical(href.value)))
  }

  function BatchCollection(provider: Provider, href: Link): Option<Url>
  {
    if href.None? || !OwnSite(provider, href.value) || href.value.search != "" || href.value.hash != ""
       || !CollectionPath(WithoutSlash(href.value.path)) then None
    else Some(Canonical(href.value))
  }

  /** Which links are conversations, written out: an https link to the provider's own host without
      credentials, whose path has one of that provider's forms, with or without one slash behind
      it. The id is the last segment; the URL keeps nothing but host and path. */
  lemma ConversationExactlyWhen(provider: Provider, href: Link)
    ensures BatchConversation(provider, href).Some? <==>
              && href.Some? && TrustedLink(provider, href.value)
              && exists id :: IsWord(id) && IsConversationPath(provider, WithoutSlash(href.value.path), id)
    ensures BatchConversation(provider, href).Some? ==>
              var ref := BatchConversation(provider, href).value;
              && IsWord(ref.id) && IsConversationPath(provider, ref.url.path, ref.id)
              && TrustedLink(provider, ref.url) && ref.url.search == ref.url.hash == ""
              && (href.value.path == ref.url.path || href.value.path == ref.url.path + [""])
  {
    if href.Some? && ConversationPath(provider, WithoutSlash(href.value.path)) {
      var path := WithoutSlash(href.value.path);
      var id := path[|path| - 1];
      assert IsWord(id) && IsConversationPath(provider, path, id);
    }
  }

  predicate TrustedLink(provider: Provider, url: Url)
  {
    && url.protocol == "https:" && url.username == "" && url.password == ""
    && match provider
       case ChatGPT => url.host == "chatgpt.com"
       case Claude => url.host == "claude.ai"
       case Gemini => url.host == "gemini.google.com"
       case Grok => url.host == "grok.com"
       case Unsupported => false
  }

  ghost predicate IsConversationPath(provider: Provider, path: seq<string>, id: string)
  {
    match provider
    case ChatGPT => path == ["c", id] || (|path| == 4 && path[1] != "" && path == ["g", path[1], "c", id])
    case Claude => path == ["chat", id]
    case Gemini => path == ["app", id] || (|path| == 4 && IsNumber(path[1]) && path == ["u", path[1], "app", id])
    case Grok => path == ["c", id]
    case Unsupported => false
  }

  /** Which links are followed: trusted, without search and hash, and one of these pages. */
  lemma CollectionExactlyWhen(provider: Provider, href: Link)
    ensures BatchCollection(provider, href).Some? <==>
              && href.Some? && TrustedLink(provider, href.value) && href.value.search == href.value.hash == ""
              && IsCollectionPath(WithoutSlash(href.value.path))
    ensures BatchCollection(provider, href).Some? ==>
              var url := BatchCollection(provider, href).value;
              && TrustedLink(provider, url) && url.search == url.hash == ""
              && (href.value.path == url.path || href.value.path == url.path + [""])
  {
    if href.Some? {
      var path := WithoutSlash(href.value.path);
      if |path| == 1 {
        assert path == [path[0]];
      }
    }
  }

  ghost predicate IsCollectionPath(path: seq<string>)
  {
    || (exists page :: path == [page]
          && page in {"project", "projects", "archived", "archived-chats", "archive", "recents", "history"})
    || (|path| == 2 && IsWord(path[1]) && path[0] in {"project", "projects", "g"})
    || (|path| == 3 && IsWord(path[1]) && path[0] == "g" && path[2] == "project")
  }

  /** By code points: a word is made of a to z, A to Z, 0 to 9, underscore and hyphen, a number
      of 0 to 9. */
  lemma WordCharacters(s: string)
    ensures IsWord(s) <==>
      s != "" && forall i :: 0 <= i < |s| ==>
        var n := s[i] as int;
        97 <= n <= 122 || 65 <= n <= 90 || 48 <= n <= 57 || n == 95 || n == 45
    ensures IsNumber(s) <==> s != "" && forall i :: 0 <= i < |s| ==> 48 <= s[i] as int <= 57
  {
  }

  /** The canonical URL of a conversation is recognised as itself, with the same id. */
  lemma ConversationIdempotent(provider: Provider, href: Link)
    requires BatchConversation(provider, href).Some?
    ensures var ref := BatchConversation(provider, href).value;
            BatchConversation(provider, Some(ref.url)) == Some(ref)
  {
    var path := WithoutSlash(href.value.path);
    assert path[|path| - 1] != "";
    assert WithoutSlash(path) == path;
  }

  /** A collection that is followed is canonical: it is one URL however it is spelled. */
  lemma CollectionIdempotent(provider: Provider, href: Link)
    requires BatchCollection(provider, href).Some?
    ensures var url := BatchCollection(provider, href).value;
            BatchCollection(provider, Some(url)) == Some(url)
  {
    var path := WithoutSlash(href.value.path);
    assert path[|path| - 1] != "";
    assert WithoutSlash(path) == path;
  }
}
