# Sticky uploads: a verified model of `StickyFileInput`

`StickyFileInput` is a Django form widget that keeps an uploaded file across
form resubmissions. When a form comes back with a file, the widget stages a
copy under `DIR/<user token>/<session id>/<file name>`, where the user token
is the submitted CSRF token and the session id is the clock in seconds
written as `'%.6f'`. The next render carries the file name and session id in
two hidden inputs. When the form comes back without a file, the widget reads
the staged copy back from those inputs. Before each save, an eviction sweep
keeps the shared directory bounded:

- the whole store goes when it holds more than `MAX_STICKY_FILES` files;
- a user goes when they hold more than `MAX_FILES_PER_USER` files;
- a session directory goes when its numeric name is older than
  `STICKINESS` seconds, or always when the sweep is forced;
- a user directory goes when it was empty when listed.

The model has six modules:

- `Wrappers` (wrappers.dfy): the `Option` and `Result` types.
- `Settings` (settings.dfy): the four options as a record, with their
  defaults.
- `MapSums` (map_sums.dfy): sums over finite maps, used for the file counts.
- `SessionIds` (session_ids.dfy): the `'%.6f'` session id and the
  `float()` reading of a directory name.
- `StickyStore` (store.dfy): the store as nested maps, with `os.walk`
  counts, the sweep as a specification (`Flush`), reading and writing one
  staged file, and the `FileSystem` class that holds the shared store.
- `StickyFields` (fields.dfy): the widget. The pure parts are hidden input
  names, the rendered notice and the path. `SaveCopy`, `LoadCopy` and
  `Submit` specify save, load and one submission. The class
  `StickyFileInput` holds the widget's fields and implements
  `flush_sticky_storage`, `save_sticky_copy`, `load_sticky_copy` and
  `value_from_datadict` as methods. Each method is proved equal to its
  specification.

The clock is a parameter `now` in whole microseconds, so `'%.6f'` is exact.
Uploaded bytes and the submitted form data are parameters too. The base
widget's `value_from_datadict` is the `upload` parameter.

The source and its comment disagree on `load_sticky_copy`. The widget and
`Submit` use the behaviour the comment describes. The code as written is
modelled separately and recorded under Findings.

## Model

| member | source | states |
|---|---|---|
| Settings.Defaults | sticky_uploads/settings.py:10-15 | The default configuration is rooted at the given directory and has non-negative file limits. The body holds the defaults: 1000 files overall, 10 per user, a 3600-second window. |
| StickyStore.CountUserFiles | sticky_uploads/fields.py:16-17 | Counting a user's directory returns the number of files below it: the sum over its entries, where a session directory counts its files and a plain file counts one. |
| StickyStore.CountStoreFiles | sticky_uploads/fields.py:16-17 | Counting the store returns the sum of its users' file counts. |
| MapSums.SumRemove | sticky_uploads/fields.py:16-17 | A directory's file count does not depend on listing order: it is any one entry's count plus the count of the rest. |
| MapSums.SumMonotone | sticky_uploads/fields.py:16-17 | A listing with a subset of the names, each with no more files, has no more files in total. |
| StickyStore.FlushGlobalRules | sticky_uploads/fields.py:47-53 | A missing store stays missing. A store over MAX_STICKY_FILES is removed whole. Otherwise the store is kept and gains no user. |
| StickyStore.SweepIsPerUser | sticky_uploads/fields.py:55-61 | Whether a user survives, and what is left of them, depends only on that user's own directory; removing one user leaves the others unchanged. |
| StickyStore.UserRemovedIff | sticky_uploads/fields.py:55-75 | A user is removed exactly when they hold more than MAX_FILES_PER_USER files or their directory was empty when listed. |
| StickyStore.SweepRemovesExactlyEvicted | sticky_uploads/fields.py:63-72 | In a kept user, an entry is removed exactly when its name parses as a number, it is older than STICKINESS (or the sweep is forced), and it is a directory. Kept entries are unchanged. Non-numeric names and plain files always survive. |
| StickyStore.EmptiedUserSurvivesSweep | sticky_uploads/fields.py:55-75 | A user whose every session this sweep removes is left as an empty directory, and is removed by the next flush, whatever its clock reading and whether or not it is forced. |
| StickyStore.SweepNeverAddsFiles | sticky_uploads/fields.py:63-72 | The age sweep never increases a user's file count. |
| StickyStore.FlushBoundsStore | sticky_uploads/fields.py:47-75 | After a flush that keeps the store, the store holds no more files than before and at most MAX_STICKY_FILES, and every user holds at most MAX_FILES_PER_USER. |
| StickyStore.SessionOfTimeEvicted | sticky_uploads/fields.py:63-72 | The sweep counts a session directory the widget made at time t as evicted once more than STICKINESS seconds have passed, or when forced. |
| StickyStore.ExpiredSessionEvicted | sticky_uploads/fields.py:63-72 | A file in a session the widget created at time t cannot be read after a flush once more than STICKINESS seconds have passed, or after a forced flush. |
| StickyStore.FreshSessionSurvives | sticky_uploads/fields.py:63-72 | A staged file within the STICKINESS window, in a user and store under their limits, is still readable after an unforced flush. |
| StickyStore.Write | sticky_uploads/fields.py:109-112 | Writing at a key fails exactly when the session entry is a plain file. On failure the error is an I/O error. On success the key reads back the new bytes, and every other (user, session, file) reads as before. Every other user is kept unchanged. The key's user gains at most the key's session, and its other entries, plain files and empty session directories included, are kept unchanged. |
| StickyStore.WriteAddsAtMostOneFile | sticky_uploads/fields.py:109-112 | A successful write adds at most one file to its user and to the store, and keeps every other user, unchanged. |
| StickyStore.FileSystem.WriteFile | sticky_uploads/fields.py:109-112 | On success the store is the written store and the key reads back the content. On failure the store is unchanged and the error is reported. |
| StickyStore.FileSystem.RemoveRoot | sticky_uploads/fields.py:52 | The whole store is gone. |
| StickyStore.FileSystem.RemoveUser | sticky_uploads/fields.py:60 | Exactly that user's directory is gone. |
| StickyStore.FileSystem.RemoveEntry | sticky_uploads/fields.py:72 | Exactly that entry of that user is gone. |
| SessionIds.FormatSessionId | sticky_uploads/fields.py:148 | `'%.6f'` of the clock: at least one digit, a dot, then exactly six digits. |
| SessionIds.ParseTimestamp | sticky_uploads/fields.py:64-67 | The `float()` reading of a directory name, or None when it is not a number. Only a non-empty name parses, and a negative value needs a leading minus sign. Its round trip with FormatSessionId is stated by ParseFormatRoundTrip. |
| SessionIds.ParseFormatRoundTrip | sticky_uploads/fields.py:148 | A session id made from clock reading t parses back as exactly t seconds, as the sweep's float() reading at line 65 takes it, so the sweep manages every session the widget creates. |
| SessionIds.NumericNamesAreNumerals | sticky_uploads/fields.py:64-67 | A name that parses as a timestamp contains only digits, signs and dots, and at least one digit. Any other name is left alone by the sweep. |
| SessionIds.AgeOfSession | sticky_uploads/fields.py:65-69 | A session made at t is older than a window of w seconds exactly when now - t exceeds w seconds in microseconds. |
| StickyFields.HiddenInputName | sticky_uploads/fields.py:77-78 | A hidden input's name is the field name, an underscore, then the suffix. |
| StickyFields.HiddenInputs | sticky_uploads/fields.py:80-92 | The notice is produced exactly when a non-empty file name is held. It shows that name, and carries it and the session id under the field's two hidden input names. |
| StickyFields.HiddenInputsEchoFields | sticky_uploads/fields.py:80-92 | The notice is rendered exactly when a non-empty file name is held. It shows that name and echoes it and the session id (the text None when absent) in inputs named name_sticky_file and name_sticky_session_id. |
| StickyFields.HiddenInputNamesDistinct | sticky_uploads/fields.py:77-78 | The two hidden input names differ from each other, from the field name and from the token field. |
| StickyFields.StickyPath | sticky_uploads/fields.py:98-104 | Path calculation succeeds exactly when the session id, file name and user token are all present and non-empty, and then gives the key (DIR, token, session id, file name). Otherwise it fails with missing data. |
| StickyFields.SaveThenLoad | sticky_uploads/fields.py:106-117 | Save fails with missing data exactly when the path cannot be formed, and with an I/O error exactly when the flushed store has a plain file at the session. When save succeeds, loading the same identifiers returns the same bytes, because the flush runs before the write. |
| StickyFields.SaveBoundsStorage | sticky_uploads/fields.py:106-112 | After any save, the store holds at most MAX_STICKY_FILES + 1 files and each user at most MAX_FILES_PER_USER + 1. |
| StickyFields.LoadCopyOutcome | sticky_uploads/fields.py:115-122 | The corrected load returns the bytes at the key. On a miss, for either cause, it forgets both identifiers, and the next render shows nothing. |
| StickyFields.LoadAsWritten | sticky_uploads/fields.py:115-122 | Load as written raises an I/O error exactly when the path can be formed but no file is there, and then keeps the identifiers. In every other case it agrees with the corrected load. |
| StickyFields.EvictedReferenceRaisesAsWritten | sticky_uploads/fields.py:115-122 | As written, loading a reference to an evicted session raises an I/O error and keeps the stale identifiers. |
| StickyFields.EvictedReferenceIsForgotten | sticky_uploads/fields.py:115-122 | The corrected load of a reference to an evicted session returns nothing, forgets both identifiers and renders nothing. |
| StickyFields.SecondCallReplaysFirst | sticky_uploads/fields.py:137-170 | Once a value is cached, any later call with any arguments returns it and changes neither the widget nor the store. |
| StickyFields.NewUploadErrors | sticky_uploads/fields.py:140-149 | A new upload fails with missing data exactly when the token is absent or empty. It fails with an I/O error exactly when the token is present and, after the flush, a plain file sits where its session directory belongs. |
| StickyFields.NewUploadStored | sticky_uploads/fields.py:140-149 | When a new upload succeeds, it is returned and stored under (token, session id from the clock, file name), and the next render carries both identifiers. |
| StickyFields.NewUploadIsStaged | sticky_uploads/fields.py:140-149 | A new upload fails with missing data exactly when the token is absent or empty. It fails with an I/O error exactly when a plain file is in the way of its session directory after the flush. Otherwise it succeeds: it is returned, stored under (token, session id from the clock, file name), and the next render carries both identifiers. |
| StickyFields.ResubmitRecoversUpload | sticky_uploads/fields.py:140-167 | For a file name with no apostrophe and no ampersand, sending back the rendered hidden inputs with the same token and no file recovers a file with the uploaded name and bytes, in a fresh widget. |
| StickyFields.UnknownReferenceYieldsNothing | sticky_uploads/fields.py:150-157 | A submission with no file whose hidden inputs name nothing in the store returns no file, forgets both identifiers, renders nothing and leaves the store unchanged. |
| StickyFields.StickyFileInput.constructor | sticky_uploads/fields.py:41-45 | A new widget holds no token, no session id, no file name and no cached value. |
| StickyFields.StickyFileInput.SweepUserSessions | sticky_uploads/fields.py:63-72 | The loop over one user's listing leaves that user's directory equal to the age sweep of the listing, and changes nothing else. |
| StickyFields.StickyFileInput.FlushUserDirectory | sticky_uploads/fields.py:56-75 | One turn for a user removes them, or replaces their directory, as the sweep specification says, and changes nothing else. |
| StickyFields.StickyFileInput.FlushStickyStorage | sticky_uploads/fields.py:47-75 | The store afterwards is the flush specification applied to the store before. |
| StickyFields.StickyFileInput.SaveStickyCopy | sticky_uploads/fields.py:106-113 | Flush, then write: the resulting store and status are those of the save specification. On success the key reads back the content. |
| StickyFields.StickyFileInput.LoadStickyCopy | sticky_uploads/fields.py:115-122 | The result and the new fields are those of the corrected load. A miss clears the session id and the file name. |
| StickyFields.StickyFileInput.ValueFromDatadict | sticky_uploads/fields.py:124-170 | With a cached value, it returns it and changes neither the widget nor the store. A successful call caches its result. The value, fields and store afterwards are those of the submission specification. |

## Left out

- Reading the settings from Django's global settings is not modelled. The four options are a `Config` record passed in, with the source's defaults in `Settings.Defaults`.
- The file system calls (`os.walk`, `os.listdir`, `shutil.rmtree`, `os.makedirs`, `open`, `seek`, `tell`) act on a nested map. File handles and the temporary file's size and content type are not modelled; a recovered file is its name and bytes.
- The clock is read once per request and passed as `now` in microseconds. The source reads `time.time()` again for each directory it checks, so directories checked later in the same sweep are seen as older by however much time has passed since the first read.
- SessionIds.ParseTimestamp: accepts only an optional sign, digits and an optional dot followed by digits, with at least one digit. Other forms Python 2's float() accepts (exponents, `inf`, `nan`, surrounding spaces) count as non-numeric here. Underscores between digits are rejected by Python 2's float() as well, so those names are non-numeric in both. The widget never creates such names.
- Plain files directly under the store directory are not modelled: the source's `os.listdir` on such a file raises. Files nested deeper than a session directory are not modelled either.
- Names are joined into a key, not a path string. A client-supplied file name or session id containing `/` or `..` would make `os.path.join` reach outside the user's directory; the model does not capture this.
- The HTML text of the notice is not modelled, beyond its presence, the file name it shows and the hidden inputs' names and values. Its values are not HTML-escaped in the source.
- The Django collaborators are not modelled: `render` and `mark_safe`, the base widget's `value_from_datadict`, including the clear checkbox of `ClearableFileInput` (its result is the `upload` parameter), `TemporaryUploadedFile`, the `temporary_file_path` lambda, and the `StickyImageField` and `StickyFileField` wrappers.
- `make_directories` is part of `Write`. Errors other than a plain file in the way of the session directory, such as permissions or a full disk, are not modelled.
- StickyFields.ResubmitRecoversUpload: holds only for file names the browser sends back unchanged (EchoSafe). The notice pastes the name into `value='...'` without escaping. A name with an apostrophe, such as `O'Brien.pdf`, comes back cut short at the apostrophe, and a character reference such as `&amp;` comes back decoded. Either way the staged file is not found, so the upload is lost, or, with the load as written, an I/O error is raised. The model does not parse the rendered HTML, so it does not capture this loss.
- Concurrent requests sharing the store directory are not modelled. Every operation runs alone.

## Findings

| source | as written | input that shows it | evidently intended | confidence | as-written member | corrected member |
|---|---|---|---|---|---|---|
| sticky_uploads/fields.py:118 | `except ValueError, IOError` catches only `ValueError` (binding it to the name `IOError`), so a staged file that no longer exists makes `open` raise out of `load_sticky_copy` and out of `value_from_datadict`. | A resubmission whose token, file name and session id are all present, but whose session directory a flush has since evicted (made at t, loaded after more than STICKINESS seconds). | Both a missing identifier and a missing file return None and clear the identifiers, as the comment says. | not executed | StickyFields.LoadAsWritten, StickyFields.EvictedReferenceRaisesAsWritten | StickyFields.LoadCopy, StickyFields.EvictedReferenceIsForgotten |
