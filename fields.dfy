/** The sticky file input: a form widget that stages each uploaded file in
    the store and, when a later submission of the same form carries no new
    file, recovers the staged one from two hidden inputs. */
module StickyFields {
  import opened Wrappers
  import opened Settings
  import opened SessionIds
  import opened StickyStore

  /** Name of the submitted field holding the anti-forgery token, which
      serves as the user token. */
  const CsrfTokenField: string := "csrfmiddlewaretoken"
  const StickyFileSuffix: string := "sticky_file"
  const SessionIdSuffix: string := "sticky_session_id"

  /** An uploaded file: its name and its bytes (its size is their count). */
  datatype UploadedFile = UploadedFile(name: string, content: Bytes)

  /** The widget's state: user_token, sticky_session_id, sticky_file_name and
      the cached value (None until the attribute _value exists). */
  datatype Fields = Fields(
    userToken: Option<string>,
    sessionId: Option<string>,
    fileName: Option<string>,
    cached: Option<Option<UploadedFile>>)

  /** The state of a new widget. */
  const Unbound: Fields := Fields(None, None, None, None)

  /** Python truth of an optional string: present and not empty. */
  predicate Present(s: Option<string>) {
    s.Some? && s.value != ""
  }

  /** Python truth of the base input's value: a file with a non-empty name. */
  predicate Truthy(upload: Option<UploadedFile>) {
    upload.Some? && upload.value.name != ""
  }

  /** data.get(key, None) */
  function Get(data: map<string, string>, key: string): Option<string> {
    if key in data then Some(data[key]) else None
  }

  /** '%s' applied to an optional string. */
  function Show(s: Option<string>): string {
    if s.Some? then s.value else "None"
  }

  // ---- Hidden inputs ----

  /** The name of a hidden input of field `name`: the field name, an
      underscore, then the suffix. */
  function HiddenInputName(name: string, suffix: string): (r: string)
    ensures |r| == |name| + 1 + |suffix|
    ensures r[..|name|] == name && r[|name|] == '_' && r[|name| + 1..] == suffix
  {
    name + "_" + suffix
  }

  datatype HiddenInput = HiddenInput(name: string, value: string)

  /** What the widget emits before the ordinary file control: nothing, or a
      notice naming the staged file and the two hidden inputs. */
  datatype Markup =
    | NoMarkup
    | StickyNotice(shownName: string, fileInput: HiddenInput, sessionInput: HiddenInput)

  /** get_hidden_inputs: a notice exactly when a non-empty file name is
      held, echoing the file name and the session id under the field's two
      hidden input names. */
  function HiddenInputs(f: Fields, name: string): (m: Markup)
    ensures m.StickyNotice? <==> Present(f.fileName)
    ensures m.StickyNotice? ==>
              && m.shownName == f.fileName.value
              && m.fileInput == HiddenInput(HiddenInputName(name, StickyFileSuffix), f.fileName.value)
              && m.sessionInput.name == HiddenInputName(name, SessionIdSuffix)
              && (f.sessionId.Some? ==> m.sessionInput.value == f.sessionId.value)
  {
    if Present(f.fileName) then
      StickyNotice(f.fileName.value,
                   HiddenInput(HiddenInputName(name, StickyFileSuffix), f.fileName.value),
                   HiddenInput(HiddenInputName(name, SessionIdSuffix), Show(f.sessionId)))
    else
      NoMarkup
  }

  /** The notice appears exactly when a file name is held; it shows that
      name and echoes it and the session id (None when absent) in inputs
      named after the field. */
  lemma HiddenInputsEchoFields(f: Fields, name: string)
    ensures HiddenInputs(f, name).StickyNotice? <==> f.fileName.Some? && f.fileName.value != ""
    ensures HiddenInputs(f, name).StickyNotice? ==>
              HiddenInputs(f, name)
              == StickyNotice(f.fileName.value,
                              HiddenInput(name + "_sticky_file", f.fileName.value),
                              HiddenInput(name + "_sticky_session_id",
                                          if f.sessionId.Some? then f.sessionId.value else "None"))
  {
  }

  /** The two hidden inputs of a field differ from each other, from the field
      itself and from the token field, so a resubmission carries all of them. */
  lemma HiddenInputNamesDistinct(name: string)
    ensures HiddenInputName(name, StickyFileSuffix) != HiddenInputName(name, SessionIdSuffix)
    ensures HiddenInputName(name, StickyFileSuffix) != name
    ensures HiddenInputName(name, SessionIdSuffix) != name
    ensures HiddenInputName(name, StickyFileSuffix) != CsrfTokenField
    ensures HiddenInputName(name, SessionIdSuffix) != CsrfTokenField
  {
    var a, b := HiddenInputName(name, StickyFileSuffix), HiddenInputName(name, SessionIdSuffix);
    assert a[|a| - 1] == 'e' && b[|b| - 1] == 'd';
    assert CsrfTokenField[|CsrfTokenField| - 1] == 'n';
  }

  // ---- The staged file's key ----

  /** get_sticky_path: the key of the staged file, or MissingData when any of
      session id, file name and user token is absent or empty. */
  function StickyPath(cfg: Config, f: Fields): (r: Result<StickyKey, Error>)
    ensures r.Success? <==> Present(f.sessionId) && Present(f.fileName) && Present(f.userToken)
    ensures r.Success? ==> r.value == StickyKey(cfg.dir, f.userToken.value, f.sessionId.value, f.fileName.value)
    ensures r.Failure? ==> r.error == MissingData
  {
    if Present(f.sessionId) && Present(f.fileName) && Present(f.userToken) then
      Success(StickyKey(cfg.dir, f.userToken.value, f.sessionId.value, f.fileName.value))
    else
      Failure(MissingData)
  }

  /** save_sticky_copy: flush, then write `content` at the key; the store
      after it and whether it raised. */
  ghost function SaveCopy(cfg: Config, now: nat, f: Fields, root: Root, content: Bytes): (Root, Status) {
    var flushed := Flush(cfg, now, false, root);
    match StickyPath(cfg, f)
    case Failure(e) => (flushed, Raised(e))
    case Success(key) =>
      match Write(flushed, key, content)
      case Failure(e) => (flushed, Raised(e))
      case Success(written) => (written, Done)
  }

  /** The identifiers forgotten after a failed recovery. */
  function Forget(f: Fields): Fields {
    f.(sessionId := None, fileName := None)
  }

  /** load_sticky_copy as the comment on it intends: a missing identifier and
      a missing file both give None and forget the identifiers. */
  function LoadCopy(cfg: Config, f: Fields, root: Root): (Fields, Option<Bytes>) {
    var copy := match StickyPath(cfg, f) case Failure(_) => None case Success(key) => Read(root, key);
    if copy.None? then (Forget(f), None) else (f, copy)
  }

  /** load_sticky_copy as written: `except ValueError, IOError` catches only
      ValueError, so a missing file raises out of it. */
  function LoadAsWritten(cfg: Config, f: Fields, root: Root): (r: (Fields, Result<Option<Bytes>, Error>))
    ensures r.1.Failure? <==> StickyPath(cfg, f).Success? && Read(root, StickyPath(cfg, f).value).None?
    ensures r.1.Failure? ==> r.1.error == IOError && r.0 == f
    ensures r.1.Success? ==> (r.0, r.1.value) == LoadCopy(cfg, f, root)
  {
    match StickyPath(cfg, f)
    case Failure(_) => (Forget(f), Success(None))
    case Success(key) =>
      if Read(root, key).None? then (f, Failure(IOError)) else (f, Success(Read(root, key)))
  }

  // ---- One submission ----

  /** The value returned, the widget's state after it and the store after it. */
  datatype Outcome = Outcome(result: Result<Option<UploadedFile>, Error>, fields: Fields, root: Root)

  /** value_from_datadict: `upload` is what the base file input extracts
      from the submitted files, `now` the clock in microseconds. */
  ghost function Submit(cfg: Config, f: Fields, root: Root, data: map<string, string>,
                        upload: Option<UploadedFile>, name: string, now: nat): Outcome
  {
    if f.cached.Some? then Outcome(Success(f.cached.value), f, root)
    else
      var token := Get(data, CsrfTokenField);
      if Truthy(upload) then
        var staged := f.(userToken := token, fileName := Some(upload.value.name),
                         sessionId := Some(FormatSessionId(now)));
        var saved := SaveCopy(cfg, now, staged, root, upload.value.content);
        if saved.1.Raised? then Outcome(Failure(saved.1.error), staged, saved.0)
        else Outcome(Success(upload), staged.(cached := Some(upload)), saved.0)
      else
        var claimed := f.(userToken := token,
                          fileName := Get(data, HiddenInputName(name, StickyFileSuffix)),
                          sessionId := Get(data, HiddenInputName(name, SessionIdSuffix)));
        var loaded := LoadCopy(cfg, claimed, root);
        var value := if loaded.1.Some? then Some(UploadedFile(claimed.fileName.value, loaded.1.value)) else upload;
        Outcome(Success(value), loaded.0.(cached := Some(value)), root)
  }

  // ---- Saving and loading ----

  /** save_sticky_copy raises MissingData exactly when an identifier is
      missing and IOError exactly when the session entry is a plain file; when
      it succeeds, loading the same identifiers returns the bytes written:
      the flush runs before the write, so it never removes the new file. */
  lemma SaveThenLoad(cfg: Config, now: nat, f: Fields, root: Root, content: Bytes)
    ensures var saved := SaveCopy(cfg, now, f, root, content);
            && (saved.1 == Raised(MissingData) <==> StickyPath(cfg, f).Failure?)
            && (saved.1 == Raised(IOError) <==>
                  StickyPath(cfg, f).Success? && SessionIsPlainFile(Flush(cfg, now, false, root), StickyPath(cfg, f).value))
            && (saved.1.Done? ==> LoadCopy(cfg, f, saved.0) == (f, Some(content)))
  {
  }

  /** Storage stays bounded: after a save the store holds at most
      MAX_STICKY_FILES + 1 files and each user at most
      MAX_FILES_PER_USER + 1, whatever it held before. */
  lemma SaveBoundsStorage(cfg: Config, now: nat, f: Fields, root: Root, content: Bytes)
    requires WellFormed(cfg)
    ensures var r := SaveCopy(cfg, now, f, root, content).0;
            r.Some? ==> CountStore(r.value) <= cfg.maxStickyFiles + 1
                        && forall u :: u in r.value ==> CountUser(r.value[u]) <= cfg.maxFilesPerUser + 1
  {
    var flushed := Flush(cfg, now, false, root);
    FlushBoundsStore(cfg, now, false, root);
    var saved := SaveCopy(cfg, now, f, root, content);
    if saved.1.Done? {
      var key := StickyPath(cfg, f).value;
      WriteAddsAtMostOneFile(flushed, key, content);
      var r := saved.0.value;
      forall u | u in r ensures CountUser(r[u]) <= cfg.maxFilesPerUser + 1 {
        if u != key.user {
          assert r[u] == flushed.value[u];
        }
      }
    }
  }

  /** Corrected load: it returns the bytes at the key, and on a miss, for
      either cause, forgets both identifiers so the next render echoes
      nothing. */
  lemma LoadCopyOutcome(cfg: Config, f: Fields, root: Root, name: string)
    ensures var loaded := LoadCopy(cfg, f, root);
            && loaded.1 == (if StickyPath(cfg, f).Success? then Read(root, StickyPath(cfg, f).value) else None)
            && (loaded.1.Some? ==> loaded.0 == f && Present(f.fileName))
            && (loaded.1.None? ==> loaded.0 == Forget(f) && HiddenInputs(loaded.0, name) == NoMarkup)
  {
  }

  /** As written, a reference to a session that a flush has since evicted
      makes load_sticky_copy raise IOError, keeping the stale identifiers,
      instead of returning None. */
  lemma EvictedReferenceRaisesAsWritten(cfg: Config, f: Fields, root: Root, now: nat, t: nat)
    requires Present(f.userToken) && Present(f.fileName)
    requires f.sessionId == Some(FormatSessionId(t)) && now - t > cfg.stickiness * MicrosPerSecond
    ensures LoadAsWritten(cfg, f, Flush(cfg, now, false, root)) == (f, Failure(IOError))
  {
    ExpiredSessionEvicted(cfg, now, false, root, StickyPath(cfg, f).value, t);
  }

  /** Corrected, the same stale reference is recovered from: no file, both
      identifiers forgotten, nothing rendered. */
  lemma EvictedReferenceIsForgotten(cfg: Config, f: Fields, root: Root, now: nat, t: nat, name: string)
    requires Present(f.userToken) && Present(f.fileName)
    requires f.sessionId == Some(FormatSessionId(t)) && now - t > cfg.stickiness * MicrosPerSecond
    ensures LoadCopy(cfg, f, Flush(cfg, now, false, root)) == (Forget(f), None)
    ensures HiddenInputs(Forget(f), name) == NoMarkup
  {
    ExpiredSessionEvicted(cfg, now, false, root, StickyPath(cfg, f).value, t);
  }

  // ---- The submission protocol ----

  /** Once a value is cached, every later call returns it and changes
      neither the widget nor the store, whatever its arguments. */
  lemma SecondCallReplaysFirst(cfg: Config, f: Fields, root: Root, data: map<string, string>,
                               upload: Option<UploadedFile>, name: string, now: nat,
                               data': map<string, string>, upload': Option<UploadedFile>, name': string, now': nat)
    ensures var first := Submit(cfg, f, root, data, upload, name, now);
            first.result.Success? ==>
              first.fields.cached == Some(first.result.value)
              && Submit(cfg, first.fields, first.root, data', upload', name', now') == first
  {
  }

  /** A submission carrying a new file fails with MissingData exactly when
      the token is absent or empty, and with IOError exactly when, after the
      flush, a plain file sits where the session directory belongs. */
  lemma NewUploadErrors(cfg: Config, root: Root, data: map<string, string>,
                        upload: Option<UploadedFile>, name: string, now: nat)
    requires Truthy(upload)
    ensures var o := Submit(cfg, Unbound, root, data, upload, name, now);
            && (o.result == Failure(MissingData) <==> !Present(Get(data, CsrfTokenField)))
            && (o.result == Failure(IOError) <==>
                  Present(Get(data, CsrfTokenField))
                  && SessionIsPlainFile(Flush(cfg, now, false, root),
                                        StickyKey(cfg.dir, data[CsrfTokenField], FormatSessionId(now), upload.value.name)))
  {
    var o := Submit(cfg, Unbound, root, data, upload, name, now);
    var token := Get(data, CsrfTokenField);
    var staged := Unbound.(userToken := token, fileName := Some(upload.value.name),
                           sessionId := Some(FormatSessionId(now)));
    var saved := SaveCopy(cfg, now, staged, root, upload.value.content);
    assert |FormatSessionId(now)| > 0;
    SaveThenLoad(cfg, now, staged, root, upload.value.content);
    assert o.result == if saved.1.Raised? then Failure(saved.1.error) else Success(upload);
    if Present(token) {
      assert StickyKey(cfg.dir, data[CsrfTokenField], FormatSessionId(now), upload.value.name)
             == StickyPath(cfg, staged).value;
    } else {
      assert StickyPath(cfg, staged).Failure?;
    }
  }

  /** A successful submission carrying a new file returns it and stages it
      under (token, session id made from the clock, file name); the next
      render names the file and carries both identifiers. */
  lemma NewUploadStored(cfg: Config, root: Root, data: map<string, string>,
                        upload: Option<UploadedFile>, name: string, now: nat)
    requires Truthy(upload)
    ensures var o := Submit(cfg, Unbound, root, data, upload, name, now);
            o.result.Success? ==>
              && CsrfTokenField in data
              && o.result.value == upload
              && Read(o.root, StickyKey(cfg.dir, data[CsrfTokenField], FormatSessionId(now), upload.value.name))
                 == Some(upload.value.content)
              && HiddenInputs(o.fields, name)
                 == StickyNotice(upload.value.name,
                                 HiddenInput(name + "_sticky_file", upload.value.name),
                                 HiddenInput(name + "_sticky_session_id", FormatSessionId(now)))
  {
    var o := Submit(cfg, Unbound, root, data, upload, name, now);
    if o.result.Success? {
      var token := Get(data, CsrfTokenField);
      var staged := Unbound.(userToken := token, fileName := Some(upload.value.name),
                             sessionId := Some(FormatSessionId(now)));
      var saved := SaveCopy(cfg, now, staged, root, upload.value.content);
      assert |FormatSessionId(now)| > 0;
      SaveThenLoad(cfg, now, staged, root, upload.value.content);
      assert saved.1.Done? && o == Outcome(Success(upload), staged.(cached := Some(upload)), saved.0);
      var key := StickyPath(cfg, staged).value;
      assert key == StickyKey(cfg.dir, data[CsrfTokenField], FormatSessionId(now), upload.value.name);
      assert Read(saved.0, key) == Some(upload.value.content) by {
        assert LoadCopy(cfg, staged, saved.0) == (staged, Some(upload.value.content));
      }
      assert HiddenInputs(o.fields, name) == HiddenInputs(staged, name);
    }
  }

  /** A submission carrying a new file fails exactly as NewUploadErrors says
      and otherwise stages and returns it as NewUploadStored says. */
  lemma NewUploadIsStaged(cfg: Config, root: Root, data: map<string, string>,
                          upload: Option<UploadedFile>, name: string, now: nat)
    requires Truthy(upload)
    ensures var o := Submit(cfg, Unbound, root, data, upload, name, now);
            && (o.result == Failure(MissingData) <==> !Present(Get(data, CsrfTokenField)))
            && (o.result == Failure(IOError) <==>
                  Present(Get(data, CsrfTokenField))
                  && SessionIsPlainFile(Flush(cfg, now, false, root),
                                        StickyKey(cfg.dir, data[CsrfTokenField], FormatSessionId(now), upload.value.name)))
            && (o.result.Success? ==>
                  o.result.value == upload
                  && Read(o.root, StickyKey(cfg.dir, data[CsrfTokenField], FormatSessionId(now), upload.value.name))
                     == Some(upload.value.content)
                  && HiddenInputs(o.fields, name)
                     == StickyNotice(upload.value.name,
                                     HiddenInput(name + "_sticky_file", upload.value.name),
                                     HiddenInput(name + "_sticky_session_id", FormatSessionId(now))))
  {
    NewUploadErrors(cfg, root, data, upload, name, now);
    NewUploadStored(cfg, root, data, upload, name, now);
  }

  /** The form data a browser sends back from a rendered notice, together
      with the token. */
  function Resubmission(token: string, markup: Markup): map<string, string>
    requires markup.StickyNotice?
  {
    map[CsrfTokenField := token][markup.fileInput.name := markup.fileInput.value]
                                [markup.sessionInput.name := markup.sessionInput.value]
  }

  /** A value a browser sends back exactly as it was rendered inside
      `value='...'`.  The source does not escape the value, so an apostrophe
      ends the attribute early and a character reference is decoded. */
  predicate EchoSafe(s: string) {
    '\'' !in s && '&' !in s
  }

  /** Round trip through the browser: after a submission that staged a file
      whose name the browser echoes unchanged, a fresh widget given the
      rendered hidden inputs and the same token, but no new file, recovers a
      file with the same name and bytes. */
  lemma ResubmitRecoversUpload(cfg: Config, root: Root, data: map<string, string>,
                               upload: Option<UploadedFile>, name: string, now: nat, later: nat)
    requires Truthy(upload) && EchoSafe(upload.value.name)
    ensures var first := Submit(cfg, Unbound, root, data, upload, name, now);
            var markup := HiddenInputs(first.fields, name);
            first.result.Success? ==>
              markup.StickyNotice?
              && Submit(cfg, Unbound, first.root, Resubmission(data[CsrfTokenField], markup), None, name, later).result
                 == Success(Some(UploadedFile(upload.value.name, upload.value.content)))
  {
    var first := Submit(cfg, Unbound, root, data, upload, name, now);
    if first.result.Success? {
      NewUploadIsStaged(cfg, root, data, upload, name, now);
      HiddenInputNamesDistinct(name);
      var token := data[CsrfTokenField];
      var markup := HiddenInputs(first.fields, name);
      var back := Resubmission(token, markup);
      assert Get(back, CsrfTokenField) == Some(token);
      assert Get(back, HiddenInputName(name, StickyFileSuffix)) == Some(upload.value.name);
      assert Get(back, HiddenInputName(name, SessionIdSuffix)) == Some(FormatSessionId(now));
    }
  }

  /** A submission with no new file whose hidden inputs name nothing in the
      store (tampered, stale or absent) yields no file, forgets both
      identifiers, renders nothing and leaves the store as it was. */
  lemma UnknownReferenceYieldsNothing(cfg: Config, root: Root, data: map<string, string>, name: string, now: nat)
    requires var claimed := Unbound.(userToken := Get(data, CsrfTokenField),
                                     fileName := Get(data, HiddenInputName(name, StickyFileSuffix)),
                                     sessionId := Get(data, HiddenInputName(name, SessionIdSuffix)));
             StickyPath(cfg, claimed).Success? ==> Read(root, StickyPath(cfg, claimed).value) == None
    ensures var o := Submit(cfg, Unbound, root, data, None, name, now);
            && o.result == Success(None)
            && o.fields.fileName == None && o.fields.sessionId == None
            && HiddenInputs(o.fields, name) == NoMarkup
            && o.root == root
  {
  }

  // ---- The widget ----

  class StickyFileInput {
    const cfg: Config
    const store: FileSystem
    var userToken: Option<string>
    var stickySessionId: Option<string>
    var stickyFileName: Option<string>
    var cached: Option<Option<UploadedFile>>

    function State(): Fields
      reads this
    {
      Fields(userToken, stickySessionId, stickyFileName, cached)
    }

    constructor(cfg: Config, store: FileSystem)
      ensures this.cfg == cfg && this.store == store && State() == Unbound
    {
      this.cfg := cfg;
      this.store := store;
      userToken, stickySessionId, stickyFileName, cached := None, None, None, None;
    }

    /** The inner loop of flush_sticky_storage over one user's listing:
        remove each numeric-named directory that is too old, or every one of
        them when forced. */
    method SweepUserSessions(now: nat, force: bool, user: string, listing: UserDir)
      requires store.root.Some? && user in store.root.value && store.root.value[user] == listing
      modifies store
      ensures store.root == Some(old(store.root).value[user := SweepSessions(cfg, now, force, listing)])
    {
      ghost var base := store.root.value;
      var names := listing.Keys;
      PartlySweptBounds(cfg, now, force, listing);
      assert base[user := listing] == base;
      while names != {}
        invariant names <= listing.Keys
        invariant store.root == Some(base[user := PartlySwept(cfg, now, force, listing, names)])
        decreases names
      {
        var n :| n in names;
        SweepStep(cfg, now, force, listing, names, n);
        ghost var next := PartlySwept(cfg, now, force, listing, names - {n});
        match ParseTimestamp(n) {
          case None =>
            assert !Evicted(cfg, now, force, n, listing[n]);
          case Some(ts) =>
            if AgeSeconds(now, ts) > cfg.stickiness as real || force {
              if store.root.value[user][n].SessionDir? {
                assert Evicted(cfg, now, force, n, listing[n]);
                store.RemoveEntry(user, n);
                assert store.root.value == base[user := next];
              } else {
                assert !Evicted(cfg, now, force, n, listing[n]);
              }
            } else {
              assert !Evicted(cfg, now, force, n, listing[n]);
            }
        }
        names := names - {n};
      }
    }

    /** One turn of flush_sticky_storage's loop over users: remove the user
        when over MAX_FILES_PER_USER, else sweep their sessions and remove
        the user if the listing was empty. */
    method FlushUserDirectory(now: nat, force: bool, user: string)
      requires store.root.Some? && user in store.root.value
      modifies store
      ensures store.root.Some?
      ensures match FlushUser(cfg, now, force, old(store.root).value[user])
              case None => store.root.value == old(store.root).value - {user}
              case Some(d) => store.root.value == old(store.root).value[user := d]
    {
      var listing := store.root.value[user];
      var count := CountUserFiles(listing);
      if count > cfg.maxFilesPerUser {
        store.RemoveUser(user);
        return;
      }
      SweepUserSessions(now, force, user, listing);
      if |listing| == 0 {
        store.RemoveUser(user);
        assert old(store.root).value[user := SweepSessions(cfg, now, force, listing)] - {user}
            == old(store.root).value - {user};
      }
    }

    method FlushStickyStorage(now: nat, force: bool)
      modifies store
      ensures store.root == Flush(cfg, now, force, old(store.root))
    {
      if store.root.None? {
        return;  // nothing to flush
      }
      var total := CountStoreFiles(store.root.value);
      if total > cfg.maxStickyFiles {
        store.RemoveRoot();  // cheaper to wipe the store than to prune it
        return;
      }
      ghost var users := store.root.value;
      var pending := store.root.value.Keys;
      PartlyFlushedBounds(cfg, now, force, users);
      while pending != {}
        invariant pending <= users.Keys
        invariant store.root == Some(PartlyFlushed(cfg, now, force, users, pending))
        decreases pending
      {
        var user :| user in pending;
        FlushStep(cfg, now, force, users, pending, user);
        FlushUserDirectory(now, force, user);
        pending := pending - {user};
      }
    }

    /** save_sticky_copy: flush, then write `content` at the key formed from
        the fields. */
    method SaveStickyCopy(now: nat, content: Bytes) returns (status: Status)
      modifies store
      ensures status.Done? ==> StickyPath(cfg, State()).Success?
                               && Read(store.root, StickyPath(cfg, State()).value) == Some(content)
      ensures (store.root, status) == SaveCopy(cfg, now, State(), old(store.root), content)
    {
      FlushStickyStorage(now, false);
      var path := StickyPath(cfg, State());
      if path.Failure? {
        return Raised(path.error);
      }
      status := store.WriteFile(path.value, content);
    }

    /** load_sticky_copy, catching a missing file as well as missing
        identifiers. */
    method LoadStickyCopy() returns (copy: Option<Bytes>)
      modifies this
      ensures copy.None? ==> stickySessionId == None && stickyFileName == None
      ensures (State(), copy) == LoadCopy(cfg, old(State()), store.root)
    {
      var path := StickyPath(cfg, State());
      copy := if path.Success? then Read(store.root, path.value) else None;
      if copy.None? {
        // throw away useless identifiers so the user is not told the file is kept
        stickySessionId := None;
        stickyFileName := None;
      }
    }

    /** value_from_datadict.  `data` is the submitted form data, `upload`
        the base input's value for the field, `now` the clock in
        microseconds.  The first call stages or recovers the file and caches
        the value; later calls return the cached value and touch nothing. */
    method ValueFromDatadict(data: map<string, string>, upload: Option<UploadedFile>, name: string, now: nat)
      returns (r: Result<Option<UploadedFile>, Error>)
      modifies this, store
      ensures old(cached).Some? ==> r == Success(old(cached).value) && unchanged(this) && unchanged(store)
      ensures r.Success? ==> cached == Some(r.value)
      ensures Outcome(r, State(), store.root) == Submit(cfg, old(State()), old(store.root), data, upload, name, now)
    {
      if cached.Some? {
        return Success(cached.value);
      }
      userToken := Get(data, CsrfTokenField);
      var value := upload;
      if Truthy(upload) {
        // a new file: keep a copy in case the form comes back
        stickyFileName := Some(upload.value.name);
        stickySessionId := Some(FormatSessionId(now));
        var status := SaveStickyCopy(now, upload.value.content);
        if status.Raised? {
          return Failure(status.error);
        }
      } else {
        // no new file: look for the staged copy the hidden inputs name
        stickyFileName := Get(data, HiddenInputName(name, StickyFileSuffix));
        stickySessionId := Get(data, HiddenInputName(name, SessionIdSuffix));
        var copy := LoadStickyCopy();
        if copy.Some? {
          value := Some(UploadedFile(stickyFileName.value, copy.value));
        }
      }
      cached := Some(value);
      return Success(value);
    }
  }
}
