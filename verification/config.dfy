/**
 The build configuration's use of the plugin: the script name, version,
 author and description come from the package metadata, and the header adds
 one `include` pattern and one `grant`. The metadata values are parameters;
 everything else is fixed, so the banner and the proxy are known line by line.
 */
module Config {
  import opened Text
  import opened Header
  import opened Plugin

  const IncludePattern: string := "https://example.com/*"
  const Grant: string := "none"

  /** The header the configuration passes to the plugin, in its key order. */
  function ConfigHeader(name: string, version: string, author: string, description: string): FieldSet
  {
    [ Field("name", Scalar(name)),
      Field("version", Scalar(version)),
      Field("author", Scalar(author)),
      Field("description", Scalar(description)),
      Field("include", List([IncludePattern])),
      Field("grant", List([Grant])) ]
  }

  /** The plugin options: the package name names both the bundle and the script. */
  function ConfigOptions(name: string, version: string, author: string, description: string): Options
  {
    Options(name, ConfigHeader(name, version, author, description))
  }

  /** One entry per configured key: the include and grant lists hold one element each. */
  lemma ConfigEntries(name: string, version: string, author: string, description: string)
    ensures Entries(ConfigHeader(name, version, author, description))
         == [ ("name", name), ("version", version), ("author", author), ("description", description),
              ("include", IncludePattern), ("grant", Grant) ]
  {
    EntriesOfSingletons(ConfigHeader(name, version, author, description));
  }

  /** A field line is the prefix, the padded key column and the value. */
  lemma FieldLineColumn(key: string, value: string, column: string)
    requires PadEnd(key, KeyWidth) + " " == column
    ensures FieldLine(key, value) == LinePrefix + column + value
  {
    assert LinePrefix + PadEnd(key, KeyWidth) + " " + value == LinePrefix + (PadEnd(key, KeyWidth) + " ") + value;
  }

  /** The metadata keys are shorter than the key column and are padded to it. */
  lemma MetadataFieldLines(name: string, version: string, author: string)
    ensures FieldLine("name", name) == "// @name        " + name
    ensures FieldLine("version", version) == "// @version     " + version
    ensures FieldLine("author", author) == "// @author      " + author
  {
    assert FieldLine("name", name) == "// @name        " + name by {
      FieldLineColumn("name", name, "name        ");
    }
    assert FieldLine("version", version) == "// @version     " + version by {
      FieldLineColumn("version", version, "version     ");
    }
    assert FieldLine("author", author) == "// @author      " + author by {
      FieldLineColumn("author", author, "author      ");
    }
  }

  /** `description` fills the key column exactly: no padding, one space. */
  lemma DescriptionFieldLine(description: string)
    ensures FieldLine("description", description) == "// @description " + description
  {
    FieldLineColumn("description", description, "description ");
  }

  /** The list keys are padded like the metadata keys; each list has one element. */
  lemma IncludeFieldLine()
    ensures FieldLine("include", IncludePattern) == "// @include     " + IncludePattern
  {
    FieldLineColumn("include", IncludePattern, "include     ");
  }

  lemma GrantFieldLine()
    ensures FieldLine("grant", Grant) == "// @grant       " + Grant
  {
    FieldLineColumn("grant", Grant, "grant       ");
  }

  /** The six field lines the configured header should produce, as a userscript manager shows them. */
  function ConfigLines(name: string, version: string, author: string, description: string): seq<string>
  {
    [ "// @name        " + name,
      "// @version     " + version,
      "// @author      " + author,
      "// @description " + description,
      "// @include     " + IncludePattern,
      "// @grant       " + Grant ]
  }

  lemma ConfigBodyLines(name: string, version: string, author: string, description: string)
    ensures BodyLines(ConfigHeader(name, version, author, description)) == ConfigLines(name, version, author, description)
  {
    ConfigEntries(name, version, author, description);
    MetadataFieldLines(name, version, author);
    DescriptionFieldLine(description);
    IncludeFieldLine();
    GrantFieldLine();
  }

  /**
   The banner of the configured build: the opening marker, the four metadata
   lines, the include and grant lines, the closing marker and the final
   empty line.
   */
  lemma ConfigBanner(name: string, version: string, author: string, description: string, resolve: string -> string)
    ensures Apply(ConfigOptions(name, version, author, description), resolve).banner
         == Join(["// ==UserScript=="] + ConfigLines(name, version, author, description) + ["// ==/UserScript==", ""])
  {
    ConfigBodyLines(name, version, author, description);
  }

  /** The configured header has no `require` key. */
  lemma ConfigHasNoRequire(name: string, version: string, author: string, description: string)
    ensures IndexOf(Keys(ConfigHeader(name, version, author, description)), RequireKey)
         == |ConfigHeader(name, version, author, description)|
  {
    assert Keys(ConfigHeader(name, version, author, description))
        == ["name", "version", "author", "description", "include", "grant"];
  }

  /** The proxy's field lines: the configured ones, then the bundle's `file://` line. */
  lemma ConfigProxyBodyLines(name: string, version: string, author: string, description: string, resolved: string)
    ensures BodyLines(ProxyFields(ConfigHeader(name, version, author, description), resolved))
         == ConfigLines(name, version, author, description) + ["// @require     file://" + resolved]
  {
    var h := ConfigHeader(name, version, author, description);
    ConfigHasNoRequire(name, version, author, description);
    assert BodyLines(ProxyFields(h, resolved)) == BodyLines(h) + [FieldLine(RequireKey, RequireUrl(resolved))] by {
      ProxyBodyLinesAppended(h, resolved);
    }
    assert FieldLine(RequireKey, RequireUrl(resolved)) == "// @require     file://" + resolved by {
      RequireLine(RequireUrl(resolved));
    }
    ConfigBodyLines(name, version, author, description);
  }

  /**
   The configured header has no `require`, so the proxy is the banner with
   the bundle's `file://` line added right before the closing marker, and it
   is written beside the bundle.
   */
  lemma ConfigProxy(name: string, version: string, author: string, description: string, resolve: string -> string)
    ensures var out := Apply(ConfigOptions(name, version, author, description), resolve);
      && out.proxyPath == "./dist/" + name + ".proxy.user.js"
      && out.proxyText
         == Join(["// ==UserScript=="] + ConfigLines(name, version, author, description)
                 + ["// @require     file://" + resolve("dist/" + name + ".user.js"), "// ==/UserScript==", ""])
  {
    var options := ConfigOptions(name, version, author, description);
    var resolved := resolve("dist/" + name + ".user.js");
    var body := ConfigLines(name, version, author, description);
    var line := "// @require     file://" + resolved;
    assert [OpenMarker] + (body + [line]) + [CloseMarker, ""] == [OpenMarker] + body + [line, CloseMarker, ""];
    assert BodyLines(ProxyFields(options.header, resolved)) == body + [line] by {
      ConfigProxyBodyLines(name, version, author, description, resolved);
    }
    assert ArtifactPath(name) == "dist/" + name + ".user.js";
    assert ProxyPath(name) == "./dist/" + name + ".proxy.user.js";
  }
}
