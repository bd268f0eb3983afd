// The wiki pages: loading the per-locale markdown files into a table, and
// the two lookups that fall back to the guild's locale. Directory listings
// and file reads are inputs; the guild locale is cached on first use.
module Wiki {
  import opened Common

  /** Longer pages are skipped when loading. */
  const MaxContentLength: int := 4000

  /** A listed markdown file: its name, its path, and its text when it could be read. */
  datatype WikiFile = WikiFile(name: string, path: string, content: Option<string>)

  /** A loaded page. */
  datatype Page = Page(path: string, content: string)

  predicate Valid(f: WikiFile)
  {
    f.content.Some? && |f.content.value| <= MaxContentLength
  }

  /** The pages of one locale: every readable file within the limit, by name. */
  function ValidFiles(fs: seq<WikiFile>): (r: map<string, Page>)
    ensures forall n :: n in r ==> |r[n].content| <= MaxContentLength
    ensures forall n :: n in r <==> exists i :: 0 <= i < |fs| && fs[i].name == n && Valid(fs[i])
  {
    if fs == [] then map[]
    else
      var init := fs[..|fs| - 1];
      var f := fs[|fs| - 1];
      var r0 := ValidFiles(init);
      assert forall i :: 0 <= i < |init| ==> init[i] == fs[i];
      if Valid(f) then r0[f.name := Page(f.path, f.content.value)] else r0
  }

  /** The table after loading: each locale with at least one valid page, and
      its pages. A locale whose directory is missing has no listing. */
  function Loaded(locales: seq<string>, listing: map<string, seq<WikiFile>>): (r: map<string, map<string, Page>>)
    ensures forall loc :: loc in r <==> loc in locales && loc in listing && |ValidFiles(listing[loc])| > 0
    ensures forall loc :: loc in r ==> r[loc] == ValidFiles(listing[loc])
  {
    if locales == [] then map[]
    else
      var init := locales[..|locales| - 1];
      var loc := locales[|locales| - 1];
      var r0 := Loaded(init, listing);
      assert locales == init + [loc];
      if loc in listing && |ValidFiles(listing[loc])| > 0 then r0[loc := ValidFiles(listing[loc])] else r0
  }

  /** One more locale adds its valid pages, when it has any. */
  lemma LoadedSnoc(init: seq<string>, loc: string, listing: map<string, seq<WikiFile>>)
    ensures Loaded(init + [loc], listing) ==
              if loc in listing && |ValidFiles(listing[loc])| > 0
              then Loaded(init, listing)[loc := ValidFiles(listing[loc])]
              else Loaded(init, listing)
  {
    var s := init + [loc];
    assert s[..|s| - 1] == init && s[|s| - 1] == loc;
  }

  /** The page paths of a locale. */
  function Paths(pages: map<string, Page>): (r: map<string, string>)
    ensures r.Keys == pages.Keys && forall n :: n in r ==> r[n] == pages[n].path
  {
    map n | n in pages :: pages[n].path
  }

  predicate HasPages(data: map<string, map<string, Page>>, loc: string)
  {
    loc in data && |data[loc]| > 0
  }

  /** `get_wiki_files`: the requested locale's pages if it has any, else the
      guild locale's, else nothing. */
  function WikiFiles(data: map<string, map<string, Page>>, locale: string, guild: string): (r: Option<map<string, string>>)
    ensures r.Some? <==> HasPages(data, locale) || HasPages(data, guild)
    ensures HasPages(data, locale) ==> r == Some(Paths(data[locale]))
    ensures !HasPages(data, locale) && HasPages(data, guild) ==> r == Some(Paths(data[guild]))
  {
    if HasPages(data, locale) then Some(Paths(data[locale]))
    else if HasPages(data, guild) then Some(Paths(data[guild]))
    else None
  }

  predicate HasPage(data: map<string, map<string, Page>>, loc: string, name: string)
  {
    loc in data && name in data[loc]
  }

  /** `get_wiki_file_content`: the page from the requested locale if it has
      it, else from the guild locale, else nothing. */
  function WikiContent(data: map<string, map<string, Page>>, locale: string, guild: string, name: string): (r: Option<string>)
    ensures r.Some? <==> HasPage(data, locale, name) || HasPage(data, guild, name)
    ensures HasPage(data, locale, name) ==> r == Some(data[locale][name].content)
    ensures !HasPage(data, locale, name) && HasPage(data, guild, name) ==> r == Some(data[guild][name].content)
  {
    if HasPage(data, locale, name) then Some(data[locale][name].content)
    else if HasPage(data, guild, name) then Some(data[guild][name].content)
    else None
  }

  /** Whatever page a lookup returns after loading is within the size limit
      and comes from a readable listed file of the locale it was found in. */
  lemma LoadedContentWithinLimit(locales: seq<string>, listing: map<string, seq<WikiFile>>,
                                 locale: string, guild: string, name: string)
    ensures var r := WikiContent(Loaded(locales, listing), locale, guild, name);
            r.Some? ==> |r.value| <= MaxContentLength
    ensures var r := WikiContent(Loaded(locales, listing), locale, guild, name);
            r.Some? ==> exists loc :: loc in locales && loc in listing
                                      && exists i :: 0 <= i < |listing[loc]| && listing[loc][i].name == name && Valid(listing[loc][i])
  {
    var data := Loaded(locales, listing);
    if HasPage(data, locale, name) {
      assert locale in locales && locale in listing;
    } else if HasPage(data, guild, name) {
      assert guild in locales && guild in listing;
    }
  }

  /** A locale with the page is answered from itself, whatever the guild locale. */
  lemma OwnLocaleFirst(data: map<string, map<string, Page>>, locale: string, g1: string, g2: string, name: string)
    requires HasPage(data, locale, name)
    ensures WikiContent(data, locale, g1, name) == WikiContent(data, locale, g2, name)
  {
  }

  /** The pages of one locale directory, read file by file. */
  method ReadLocale(files: seq<WikiFile>) returns (valid: map<string, Page>)
    ensures valid == ValidFiles(files)
  {
    valid := map[];
    var j := 0;
    while j < |files|
      invariant 0 <= j <= |files|
      invariant valid == ValidFiles(files[..j])
    {
      assert files[..j + 1][..j] == files[..j];
      var f := files[j];
      if f.content.Some? && |f.content.value| <= MaxContentLength {
        valid := valid[f.name := Page(f.path, f.content.value)];
      }
      j := j + 1;
    }
    assert files[..j] == files;
  }

  /** The loaded table and the cached guild locale. */
  class WikiHelper {
    var data: map<string, map<string, Page>>
    var guildLanguage: Option<string>

    constructor()
      ensures data == map[] && guildLanguage.None?
    {
      data := map[];
      guildLanguage := None;
    }

    /** `load_wiki_data`: nothing when the wiki command is disabled; otherwise
        the table is cleared and refilled locale by locale. */
    method LoadWikiData(enabled: bool, locales: seq<string>, listing: map<string, seq<WikiFile>>)
      modifies this
      ensures enabled ==> data == Loaded(locales, listing)
      ensures !enabled ==> data == old(data)
      ensures guildLanguage == old(guildLanguage)
    {
      if !enabled {
        return;
      }
      data := map[];
      var i := 0;
      while i < |locales|
        invariant 0 <= i <= |locales|
        invariant data == Loaded(locales[..i], listing)
        invariant guildLanguage == old(guildLanguage)
      {
        var loc := locales[i];
        TakeSnoc(locales, i);
        LoadedSnoc(locales[..i], loc, listing);
        if loc in listing {
          var valid := ReadLocale(listing[loc]);
          if |valid| > 0 {
            data := data[loc := valid];
          }
        }
        i := i + 1;
      }
      assert locales[..i] == locales;
    }

    /** `_get_guild_locale`: the first value fetched is kept. */
    method GuildLocale(current: string) returns (loc: string)
      modifies this
      ensures loc == (if old(guildLanguage).Some? then old(guildLanguage).value else current)
      ensures guildLanguage == Some(loc) && data == old(data)
    {
      if guildLanguage.None? {
        guildLanguage := Some(current);
      }
      loc := guildLanguage.value;
    }

    /** `get_wiki_files`; the guild locale is fetched only when the
        requested locale has no pages. */
    method GetWikiFiles(locale: string, currentGuild: string) returns (r: Option<map<string, string>>)
      modifies this
      ensures var g := if old(guildLanguage).Some? then old(guildLanguage).value else currentGuild;
              r == WikiFiles(data, locale, g)
      ensures data == old(data)
      ensures HasPages(data, locale) ==> guildLanguage == old(guildLanguage)
    {
      if locale in data && |data[locale]| > 0 {
        return Some(map n | n in data[locale] :: data[locale][n].path);
      }
      var g := GuildLocale(currentGuild);
      if g in data && |data[g]| > 0 {
        return Some(map n | n in data[g] :: data[g][n].path);
      }
      return None;
    }

    /** `get_wiki_file_content`, with the same fallback. */
    method GetWikiFileContent(locale: string, name: string, currentGuild: string) returns (r: Option<string>)
      modifies this
      ensures var g := if old(guildLanguage).Some? then old(guildLanguage).value else currentGuild;
              r == WikiContent(data, locale, g, name)
      ensures data == old(data)
      ensures HasPage(data, locale, name) ==> guildLanguage == old(guildLanguage)
    {
      if locale in data && name in data[locale] {
        return Some(data[locale][name].content);
      }
      var g := GuildLocale(currentGuild);
      if g in data && name in data[g] {
        return Some(data[g][name].content);
      }
      return None;
    }
  }
}
