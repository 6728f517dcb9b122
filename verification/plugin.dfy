/**
 The build plugin's own logic: the banner text for the bundled script, and
 the proxy file, a header-only script whose `require` points at the built
 bundle through a `file://` URL so that a userscript manager loads the local
 build.

 Registering the banner with the bundler, the after-compile hook and the file
 write are effects of the host and are not modelled; what is modelled is the
 text and the path those effects receive. `path.resolve` depends on the
 working directory, so it is a parameter.
 */
module Plugin {
  import opened Text
  import opened Header

  /** The options object given to the plugin factory. */
  datatype Options = Options(name: string, header: FieldSet)

  /** What `apply` hands to its collaborators: the banner text, and the proxy file's path and contents. */
  datatype Emitted = Emitted(banner: string, proxyPath: string, proxyText: string)

  const RequireKey: string := "require"
  const FileScheme: string := "file://"
  const DistDir: string := "dist/"
  const ArtifactSuffix: string := ".user.js"
  const ProxySuffix: string := ".proxy.user.js"

  function Keys(fs: FieldSet): seq<string>
  {
    seq(|fs|, i requires 0 <= i < |fs| => fs[i].key)
  }

  /** The value an object holds under `key`, if it has that key. */
  function Lookup(fs: FieldSet, key: string): Option<Value>
  {
    var i := IndexOf(Keys(fs), key);
    if i < |fs| then Some(fs[i].value) else None
  }

  /** No key occurs twice, as in every JavaScript object. */
  predicate DistinctKeys(fs: FieldSet)
  {
    forall i, j :: 0 <= i < j < |fs| ==> fs[i].key != fs[j].key
  }

  /**
   `{...fs, [key]: value}`: the spread copies every key in order, and the
   assignment then overwrites the value of an existing key where it stands,
   list or not, or adds the key last. Every other key keeps its value and
   its place.
   */
  function WithField(fs: FieldSet, key: string, value: Value): (r: FieldSet)
    ensures Lookup(r, key) == Some(value)
    ensures forall k :: k != key ==> Lookup(r, k) == Lookup(fs, k)
    ensures Keys(r) == if key in Keys(fs) then Keys(fs) else Keys(fs) + [key]
    ensures forall j :: 0 <= j < |fs| && fs[j].key != key ==> r[j] == fs[j]
    ensures DistinctKeys(fs) ==> DistinctKeys(r)
  {
    var i := IndexOf(Keys(fs), key);
    if i < |fs| then
      var r := fs[i := Field(key, value)];
      assert Keys(r) == Keys(fs);
      r
    else
      var r := fs + [Field(key, value)];
      assert Keys(r) == Keys(fs) + [key];
      assert forall j :: 0 <= j < |fs| ==> Keys(fs)[j] == fs[j].key;
      LookupAppend(fs, key, value);
      r
  }

  lemma LookupAppend(fs: FieldSet, key: string, value: Value)
    requires key !in Keys(fs)
    ensures Lookup(fs + [Field(key, value)], key) == Some(value)
    ensures forall k :: k != key ==> Lookup(fs + [Field(key, value)], k) == Lookup(fs, k)
  {
    var r := fs + [Field(key, value)];
    assert Keys(r) == Keys(fs) + [key];
    forall k
      ensures IndexOf(Keys(r), k) == if k in Keys(fs) then IndexOf(Keys(fs), k) else |fs| + IndexOf([key], k)
    {
      IndexOfAppend(Keys(fs), [key], k);
    }
  }

  /** The `file://` URL of a resolved absolute path. */
  function RequireUrl(resolved: string): string
  {
    FileScheme + resolved
  }

  /**
   The proxy header: the caller's header with `require` overwritten by the
   one URL of the built bundle. Whatever the caller put under `require`, a
   string or a list, is dropped, not kept.
   */
  function ProxyFields(header: FieldSet, resolved: string): (r: FieldSet)
    ensures Lookup(r, RequireKey) == Some(Scalar(FileScheme + resolved))
    ensures DistinctKeys(header) ==>
      forall i :: 0 <= i < |r| && r[i].key == RequireKey ==> r[i].value == Scalar(FileScheme + resolved)
  {
    var r := WithField(header, RequireKey, Scalar(RequireUrl(resolved)));
    assert DistinctKeys(header) ==> DistinctKeys(r);
    assert forall i :: 0 <= i < |r| ==> Keys(r)[i] == r[i].key;
    r
  }

  lemma ProxyFieldsShape(header: FieldSet, resolved: string)
    ensures var i := IndexOf(Keys(header), RequireKey);
      var f := Field(RequireKey, Scalar(FileScheme + resolved));
      && (i < |header| ==> ProxyFields(header, resolved) == header[..i] + [f] + header[i + 1..])
      && (i == |header| ==> ProxyFields(header, resolved) == header + [f])
  {
    var i := IndexOf(Keys(header), RequireKey);
    var f := Field(RequireKey, Scalar(FileScheme + resolved));
    if i < |header| {
      assert header[i := f] == header[..i] + [f] + header[i + 1..];
    }
  }

  /**
   The proxy's keys and values: `require` holds the bundle URL, every other key
   keeps its value, the key order is the header's, and `require` is added last
   when the header lacks it.
   */
  lemma ProxyFieldsKeys(header: FieldSet, resolved: string)
    ensures var r := ProxyFields(header, resolved);
      && Lookup(r, "require") == Some(Scalar("file://" + resolved))
      && (forall k :: k != "require" ==> Lookup(r, k) == Lookup(header, k))
      && Keys(r) == if "require" in Keys(header) then Keys(header) else Keys(header) + ["require"]
  {
  }

  /**
   The proxy's entries: the header's, with the entries of `require` (however
   many its list had, none for an empty list) replaced by the single bundle URL
   entry, in `require`'s place.
   */
  lemma ProxyEntriesReplaced(header: FieldSet, resolved: string, i: nat)
    requires i == IndexOf(Keys(header), RequireKey) < |header|
    ensures Entries(ProxyFields(header, resolved))
         == Entries(header[..i]) + [(RequireKey, FileScheme + resolved)] + Entries(header[i + 1..])
  {
    var f := Field(RequireKey, Scalar(FileScheme + resolved));
    var a, b := header[..i], header[i + 1..];
    assert FieldEntries(f) == [(RequireKey, FileScheme + resolved)];
    assert ProxyFields(header, resolved) == a + [f] + b by {
      ProxyFieldsShape(header, resolved);
    }
    EntriesAround(a, f, b);
  }

  /** Without a `require` in the header, its one entry is added after all the others. */
  lemma ProxyEntriesAppended(header: FieldSet, resolved: string)
    requires IndexOf(Keys(header), RequireKey) == |header|
    ensures Entries(ProxyFields(header, resolved)) == Entries(header) + [(RequireKey, FileScheme + resolved)]
  {
    var f := Field(RequireKey, Scalar(FileScheme + resolved));
    assert ProxyFields(header, resolved) == header + [f] by {
      ProxyFieldsShape(header, resolved);
    }
    EntriesAppend(header, [f]);
    EntriesOfScalar(RequireKey, FileScheme + resolved);
  }

  /** The relative path of the built bundle, the argument of `path.resolve`. */
  function ArtifactPath(name: string): string
  {
    DistDir + name + ArtifactSuffix
  }

  /** The path the proxy file is written to, next to the bundle. */
  function ProxyPath(name: string): (path: string)
    ensures |path| == |name| + 21
    ensures path[..7] == "./dist/"
    ensures path[7..7 + |name|] == name
    ensures path[7 + |name|..] == ".proxy.user.js"
  {
    "./" + DistDir + name + ProxySuffix
  }

  /** Different script names never share a proxy file, and the proxy sits beside the bundle. */
  lemma ProxyPathOfName(a: string, b: string)
    ensures ProxyPath(a) == ProxyPath(b) <==> a == b
    ensures ProxyPath(a) == "./" + ArtifactPath(a)[..|DistDir| + |a|] + ".proxy.user.js"
  {
    if ProxyPath(a) == ProxyPath(b) {
      assert |a| == |b|;
      assert a == ProxyPath(a)[7..7 + |a|] == ProxyPath(b)[7..7 + |b|] == b;
    }
    var stem := DistDir + a;
    assert ArtifactPath(a)[..|DistDir| + |a|] == stem by {
      assert ArtifactPath(a) == stem + ArtifactSuffix;
    }
    assert ProxyPath(a) == "./" + stem + ProxySuffix;
  }

  /** `apply`: the banner of the bundle, and the proxy file's path and text. */
  function Apply(options: Options, resolve: string -> string): Emitted
  {
    var resolved := resolve(ArtifactPath(options.name));
    Emitted(
      Serialize(options.header),
      ProxyPath(options.name),
      Serialize(ProxyFields(options.header, resolved)))
  }

  /**
   The proxy's field lines: the header's, with the lines of `require` replaced
   by the one bundle URL line in `require`'s place.
   */
  lemma ProxyBodyLinesReplaced(h: FieldSet, resolved: string, i: nat)
    requires i == IndexOf(Keys(h), RequireKey) < |h|
    ensures BodyLines(ProxyFields(h, resolved))
         == BodyLines(h[..i]) + [FieldLine(RequireKey, RequireUrl(resolved))] + BodyLines(h[i + 1..])
  {
    var x := (RequireKey, RequireUrl(resolved));
    assert Entries(ProxyFields(h, resolved)) == Entries(h[..i]) + [x] + Entries(h[i + 1..]) by {
      ProxyEntriesReplaced(h, resolved, i);
    }
    BodyLinesOfEntries(ProxyFields(h, resolved), Entries(h[..i]), x, Entries(h[i + 1..]));
  }

  /** Without a `require` in the header, the bundle URL line comes after all the header's lines. */
  lemma ProxyBodyLinesAppended(h: FieldSet, resolved: string)
    requires IndexOf(Keys(h), RequireKey) == |h|
    ensures BodyLines(ProxyFields(h, resolved)) == BodyLines(h) + [FieldLine(RequireKey, RequireUrl(resolved))]
  {
    var x := (RequireKey, RequireUrl(resolved));
    assert Entries(ProxyFields(h, resolved)) == Entries(h) + [x] + [] by {
      ProxyEntriesAppended(h, resolved);
    }
    BodyLinesOfEntries(ProxyFields(h, resolved), Entries(h), x, []);
  }

  lemma RequireLine(url: string)
    ensures FieldLine(RequireKey, url) == "// @require     " + url
  {
    assert PadEnd(RequireKey, KeyWidth) == "require    ";
  }

  /**
   Without a `require` in the header, the proxy text is the banner text with
   one more line, `// @require     file://<resolved path>`, right before the
   closing marker.
   */
  lemma ProxyAddsRequireLine(options: Options, resolve: string -> string)
    requires RequireKey !in Keys(options.header)
    ensures var out := Apply(options, resolve);
      exists pre ::
        && out.banner == pre + CloseMarker + "\n"
        && out.proxyText
           == pre + ("// @require     " + FileScheme + resolve(ArtifactPath(options.name))) + "\n" + CloseMarker + "\n"
  {
    var h := options.header;
    var resolved := resolve(ArtifactPath(options.name));
    var url := RequireUrl(resolved);
    var line := FieldLine(RequireKey, url);
    var proxy := ProxyFields(h, resolved);
    var pre := OpenMarker + "\n" + Terminated(BodyLines(h));
    assert BodyLines(proxy) == BodyLines(h) + [line] by {
      ProxyBodyLinesAppended(h, resolved);
    }
    assert Serialize(h) == pre + CloseMarker + "\n" && Serialize(proxy) == pre + line + "\n" + CloseMarker + "\n" by {
      SerializeAddLine(h, proxy, line);
    }
    assert line == "// @require     " + FileScheme + resolved by {
      RequireLine(url);
    }
    var out := Apply(options, resolve);
    assert out.banner == Serialize(h) && out.proxyText == Serialize(proxy);
  }

  /**
   With a `require` already in the header, the proxy's field lines are the
   banner's with that key's lines (one per list element) replaced by the one
   bundle URL line, at the same place.
   */
  lemma ProxyReplacesRequireLines(options: Options, resolve: string -> string)
    requires RequireKey in Keys(options.header)
    ensures var h := options.header;
      var i := IndexOf(Keys(h), RequireKey);
      var resolved := resolve(ArtifactPath(options.name));
      && BodyLines(h) == BodyLines(h[..i]) + Render(FieldEntries(h[i])) + BodyLines(h[i + 1..])
      && BodyLines(ProxyFields(h, resolved))
         == BodyLines(h[..i]) + ["// @require     " + FileScheme + resolved] + BodyLines(h[i + 1..])
  {
    var h := options.header;
    var i := IndexOf(Keys(h), RequireKey);
    var resolved := resolve(ArtifactPath(options.name));
    var line := FieldLine(RequireKey, RequireUrl(resolved));
    assert line == "// @require     " + FileScheme + resolved by {
      RequireLine(RequireUrl(resolved));
      assert "// @require     " + (FileScheme + resolved) == "// @require     " + FileScheme + resolved;
    }
    assert BodyLines(h) == BodyLines(h[..i]) + Render(FieldEntries(h[i])) + BodyLines(h[i + 1..]) by {
      BodyLinesAround(h, i);
    }
    assert BodyLines(ProxyFields(h, resolved)) == BodyLines(h[..i]) + [line] + BodyLines(h[i + 1..]) by {
      ProxyBodyLinesReplaced(h, resolved, i);
    }
  }
}
