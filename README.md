# redisent in Dafny

A model of the entry layer of **redisent**, a small Python library that
stores dataclass "entries" in Redis as pickled bytes, either as a plain
string key (SET/GET/DEL) or as one field of a Redis hash (HSET/HGET/HDEL),
and of the helpers that wrap every Redis command so that a failure becomes
a `RedisError`.

The repository carries two generations of the code, and both are modelled:

- the current package under `src/redisent/`:
  - `RedisEntry` and its field filters, `load_dict`/`as_dict`, `encode_entry`/`decode_entry` and `store`/`fetch`/`delete` (`entries.dfy`, `entry_store.dfy`);
  - `RedisentHelper`, with its decode-fallback chain and its commands (`decoding.dfy`, `helper.dfy`);
  - `RedisError` (`errors.dfy`);
- the older package under `redisent/`:
  - the codec and blocking helper of `redishelper.py` (`legacy_codec.dfy`, `legacy_helper.dfy`);
  - `BlockingRedisentHelper` of `helpers/blocking.py` (`blocking.dfy`);
  - pool and mode selection in `helpers.py`, `connection.py` and `helpers/__init__.py` (`pool_mode.dfy`);
  - the two `RedisError` variants (`errors.dfy`, tagged by `ErrorClass`);
  - `RedisEntry.as_dict` and the `Reminder` entry of `models.py` (`legacy_models.dfy`).

Two modules model what the library talks to, not the library itself:

- `RedisServer` (`server.dfy`) is the Redis server, a class holding one map from keys to string or hash values. Its methods follow the Redis command reference:
  - HSET replies with the number of new fields.
  - The last HDEL removes the key.
  - A hash command on a string key, or a string command on a hash, replies WRONGTYPE.
- `PyValues` (`values.dfy`) holds the Python values, exceptions, truthiness and `str()` that the library relies on. It also holds pickle as a codec, with `Loads(Dumps(v)) == v` proved for every picklable value.

An unreachable server and a client that cannot be built are two fields of each helper class. An unreachable server makes every command raise a connection error; a client that cannot be built makes `wrapped_redis` raise before the block.

Where the documentation and the code disagree, the model follows the code:

- The doc-comment of `set` in src/redisent/helpers.py says `True` means "set for the first time". The code returns the truth of the reply, so a plain SET always gives `True`. Only a hash write gives `False` on an overwrite (`Helper.RedisentHelper.Write`).
- `decode_redis_value` in redisent/redishelper.py has a text-decoding branch that can never run: bytes return from the branch before it (`LegacyCodec.DecodeRedisValue`).

## Model

| member | source | states |
|---|---|---|
| `Entries.FilterFields` | src/redisent/models.py:95-112 | a name is kept exactly when some declared field of that name is accepted by both flags and `init`; never more names than fields |
| `Entries.GetEntryFields` | src/redisent/models.py:84-112 | the loop with `continue`s returns exactly the filtered list of declared names |
| `Entries.FilterFieldsInOrder` | src/redisent/models.py:95-112 | the result picks accepted fields at strictly increasing declaration positions: a subsequence in declaration order |
| `Entries.EntryFields` | src/redisent/models.py:114-123 | a name is an entry field exactly when a declared field of that name is neither a redis field nor internal and is set by `__init__` |
| `Entries.RedisFieldsAreNotEntryFields` | src/redisent/models.py:63-64 | `redis_id` and `redis_name` are never entry fields |
| `Entries.Construct` | src/redisent/models.py:156 | `cls(**kwargs)` succeeds exactly when every keyword is accepted and every required field is given, otherwise raises TypeError; a success holds one attribute per field, each its keyword or its default |
| `Entries.InitAttrsOfValidClass` | src/redisent/models.py:156 | with every required argument given, `__init__` sets every declared field, from its keyword or else its default |
| `Entries.ConstructedWithoutNameIsFlat` | src/redisent/models.py:125-133 | since `redis_name` defaults to the empty string, an entry built without it is not a hash map |
| `Entries.IsHashmap` | src/redisent/models.py:125-133 | an entry whose `redis_name` is `None` is never a hash map; one with a text name is one exactly when the name is non-empty |
| `Entries.LoadKwargs` | src/redisent/models.py:145-154 | the keywords passed on: always `redis_id`; `redis_name` iff the chosen name is truthy (the argument; the keyword branch of lines 145-147 is unreachable from Python, see `Entries.ArgumentNameWins`); each entry field exactly when given, with its value; nothing else |
| `Entries.RestKwargs` | src/redisent/models.py:145-147 | popping `redis_name` leaves every other keyword as it was |
| `Entries.ArgumentNameWins` | src/redisent/models.py:145-147 | when `redis_name` is not among the collected keywords, which Python guarantees since it binds that keyword to the named parameter, the name `load_dict` uses is the argument |
| `Entries.FieldKwargs` | src/redisent/models.py:150 | the comprehension holds exactly the listed names that were given, with their values |
| `Entries.LoadKwargsAccepted` | src/redisent/models.py:149-156 | every keyword `load_dict` passes is one the class's `__init__` accepts |
| `Entries.LoadDict` | src/redisent/models.py:136-156 | a result is an instance of the class with one attribute per field; a failure is a TypeError |
| `Entries.LoadDictSucceeds` | src/redisent/models.py:136-156 | `load_dict` succeeds exactly when every required entry field is among the keywords |
| `Entries.AcceptedConstructs` | src/redisent/models.py:156 | once every keyword is accepted, construction succeeds exactly when the required fields are given |
| `Entries.LoadKwargsKeys` | src/redisent/models.py:145-154 | a name is passed iff it is `redis_id`, or `redis_name` with a truthy chosen name, or a given entry field |
| `Entries.LoadDictAttrs` | src/redisent/models.py:145-156 | the entry's `redis_id` is the argument, its `redis_name` the chosen one when truthy, and each entry field its keyword or its default |
| `Entries.LoadDictIgnoresUnknownKeys` | src/redisent/models.py:149-150 | adding a keyword that names no entry field (other than `redis_name`) does not change the result |
| `Entries.LoadKwargsFieldsOnly` | src/redisent/models.py:145-154 | the passed keywords depend on the given ones only through the entry fields and `redis_name` |
| `Entries.FieldKwargsAgree` | src/redisent/models.py:150 | keywords that agree on the listed fields and on `redis_name` give the same comprehension |
| `Entries.DictOfEveryField` | src/redisent/models.py:171 | `asdict` holds one item per declared field, in declaration order, each the field's converted value |
| `Entries.DictOf` | src/redisent/models.py:171 | `asdict` holds at most one item per field, exactly one when every field is set, each keyed by a field's name |
| `Entries.DictOfFiltered` | src/redisent/models.py:176-177 | filtering `asdict` by `get_entry_fields` keeps exactly the listed fields, in declaration order |
| `Entries.KeptIffListed` | src/redisent/models.py:95-110 | with unique names, a field is listed by `get_entry_fields` iff it passes the flags |
| `Entries.AsDictKeys` | src/redisent/models.py:171-177 | with both flags `as_dict` is every field; otherwise exactly the fields `get_entry_fields` lists with the same flags, in order, with their `asdict` values |
| `Entries.AsDict` | src/redisent/models.py:158-177 | every item of `as_dict` is an item of `asdict(self)`, and without both flags its key is one `get_entry_fields` lists |
| `Entries.DictToKwargs` | src/redisent/models.py:203 | `**d` succeeds iff every key is a `str`, with exactly those keys and their values; otherwise TypeError |
| `Entries.DecodeMapping` | src/redisent/models.py:193-203 | the only `RedisError` raised on a mapping is the one for a missing `redis_id` |
| `Entries.DecodeEntry` | src/redisent/models.py:190-217 | an unpickled entry comes back unchanged; neither mapping nor entry, a PickleError, or any other failure each become the `RedisError` of its branch, without command |
| `Entries.DecodeMappingIdentity` | src/redisent/models.py:194-201 | a truthy `use_redis_id` wins over the stored id; with neither the result is the missing-id error; a truthy `use_redis_name` wins over the stored name |
| `Entries.DecodeMappingStored` | src/redisent/models.py:194-203 | without identity arguments, the stored id and name are popped and the rest go to `load_dict` |
| `Entries.EncodedPayload` | src/redisent/models.py:230-234 | mapping mode (a dict is pickled) iff `as_mapping` is True, or, left out, iff `redis_name` is truthy; otherwise the entry itself |
| `Entries.EncodeEntry` | src/redisent/models.py:220-237 | encoding succeeds iff the payload is picklable and then unpickles to that payload; a failure is an Exception whose message names the entry's `redis_id` |
| `Entries.EncodeHashEntry` | src/redisent/models.py:230-234 | a hash entry is pickled as the dict of `get_entry_fields(True, False)` with its values |
| `Entries.IdentityIsStored` | src/redisent/models.py:63-64 | `redis_id` and `redis_name` are among the fields mapping mode stores |
| `Entries.DecodeStoredKwargs` | src/redisent/models.py:194-203 | the keywords rebuilt from a stored mapping are its stored fields other than `redis_id` and `redis_name`, with the entry's values |
| `Entries.LoadStoredKwargs` | src/redisent/models.py:136-156 | `load_dict` on an entry's own identity and stored fields rebuilds that entry |
| `Entries.LoadedAttrs` | src/redisent/models.py:150-156 | the rebuilt instance has the class and the attributes of the original |
| `Entries.LoadedField` | src/redisent/models.py:150-156 | each field of the rebuilt instance equals the original's |
| `Entries.LoadStoredSucceeds` | src/redisent/models.py:136-156 | with every entry field given, `load_dict` on the entry's identity succeeds |
| `Entries.EntryFieldsAreStored` | src/redisent/models.py:149-150 | mapping mode stores every entry field |
| `Entries.FlatEntryRoundTrip` | src/redisent/models.py:190-237 | a flat picklable entry encodes, and decodes back to itself under any class |
| `Entries.HashEntryRoundTrip` | src/redisent/models.py:190-237 | a hash entry whose values survive `asdict` and whose unstored fields hold their defaults encodes, and decodes back to itself |
| `Entries.DecodeStoredMapping` | src/redisent/models.py:193-203 | decoding the stored mapping of such an entry gives the entry |
| `EntryStore.NameArg` | src/redisent/models.py:254 | the entry's commands name a hash field exactly when `redis_name` is truthy, and that field is the name; a `None` or empty `redis_name` names none, so the entry is flat |
| `EntryStore.FetchFrom` | src/redisent/models.py:274-283 | a falsy reply raises the "No data returned" `RedisError`; otherwise the reply is decoded |
| `EntryStore.ReplyAfterWrite` | src/redisent/models.py:250-257 | GET (no field) or HGET (a field) after the write of `store` reads back the written bytes, for every name including none |
| `EntryStore.StoreThenFetch` | src/redisent/models.py:239-283 | `store` then `fetch` with the same names gives back an equal entry, flat (`redis_name` `None` or empty) or hash |
| `EntryStore.Store` | src/redisent/models.py:239-257 | for `redis_name` a string or `None`: an encoding error escapes before any write; a failing connection, or HSET over a string key (WRONGTYPE), leaves the store unchanged; otherwise HSET into the hash at `redis_id` iff `redis_name` is truthy, else SET, and the result is the reply's truth: True for SET, whether the field is new for HSET |
| `EntryStore.Fetch` | src/redisent/models.py:259-283 | on a healthy connection the result is exactly `FetchFrom` of the current store; otherwise the wrapped failure |
| `EntryStore.Delete` | src/redisent/models.py:285-305 | for `redis_name` a string or `None`: a failing connection gives the wrapped failure of the check or of the delete, nothing removed; with `check_exists` an absent entry gives False and no delete; otherwise HDEL by a truthy `redis_name` or DEL, giving whether something was removed, and exactly that removal |
| `RedisErrors.NewError` | src/redisent/errors.py:34-49 | message, base exception and command kept as given; missing extra attributes become empty; the older classes replace a missing or empty command by `Unknown` |
| `RedisErrors.OlderErrorsAlwaysNameCommand` | redisent/errors.py:16 | an error of the older classes always names a command |
| `RedisErrors.Str` | src/redisent/errors.py:63-69 | `str(err)` is exactly "Redis Error : " and the message when no truthy command is named; with a command it is `Redis Error with command "<cmd>": ` and the message, with two spaces after "Error" in the class of redisent/helpers/__init__.py:41-47 |
| `RedisErrors.IsConnectionError` | src/redisent/errors.py:24-32 | true exactly when the base exception is set and is a redis `ConnectionError`; so never for a wrapped `RedisError` |
| `RedisErrors.AttrTexts` | src/redisent/errors.py:58 | one `attr -> val` text per extra attribute, in order |
| `RedisErrors.BaseSegment` | src/redisent/errors.py:54-55 | the base-exception part of `repr` is empty exactly when there is no base exception |
| `RedisErrors.AttrsSegment` | src/redisent/errors.py:57-59 | the extra-attributes part of `repr` is empty exactly when there are none |
| `RedisErrors.Repr` | src/redisent/errors.py:51-61 | `repr` is the message head, the two optional parts, then `)>` |
| `RedisErrors.ReprBaseOnlyWhenSet` | redisent/errors.py:19-29 | `repr` mentions `base_exception` only when one is set |
| `RedisErrors.ReprOfBareError` | redisent/helpers/__init__.py:29-39 | without base exception and extra attributes `repr` is `<RedisError(message="...")>` and nothing more |
| `RedisErrors.AttrLines` | src/redisent/errors.py:84-85 | one context line per extra attribute, in order |
| `RedisErrors.Dump` | src/redisent/errors.py:71-87 | the accumulated text equals `str(err)`, a newline, the base line when set, and the context block when there are extra attributes |
| `RedisErrors.AppendAttrLines` | src/redisent/errors.py:82-85 | the loop appends every attribute's line after the head, in order |
| `RedisErrors.DumpStartsWithStr` | src/redisent/errors.py:77-87 | `dump` starts with `str(err)` and a newline, and is only that without context |
| `RedisErrors.ContextListsEveryAttr` | src/redisent/errors.py:82-85 | every attribute's line appears in the context block right after the lines of the attributes before it |
| `Helper.OpLabel` | src/redisent/helpers.py:132 | the op name is the given one, else `N/A` |
| `Helper.ConnectError` | src/redisent/helpers.py:134-139 | a client that cannot be built gives a `RedisError` with the cause as base exception, no command, and a message naming the op |
| `Helper.CommandError` | src/redisent/helpers.py:141-146 | a failure in the block gives a `RedisError` with the cause as base exception and the op as command |
| `Helper.UnreachableIsConnectionError` | src/redisent/errors.py:24-32 | a command failing on an unreachable server is a connection error, and it names a command iff the op is non-empty |
| `Helper.ConnectErrorNamesNoCommand` | src/redisent/helpers.py:134-139 | a failed client construction is tied to no command |
| `Helper.NormalizeUri` | src/redisent/helpers.py:115-128 | prefix `redis://` unless the URI starts with `/` or `redis://` |
| `Helper.NormalizeUriIdempotent` | src/redisent/helpers.py:125-126 | every normalised URI is a socket path or a `redis://` URL, and normalising twice changes nothing |
| `Helper.RedisentHelper.constructor` | src/redisent/helpers.py:102-113 | the helper keeps the pool (server and client behaviour) it is given |
| `Helper.RedisentHelper.Failure` | src/redisent/helpers.py:130-146 | an unhealthy helper fails with a `RedisError` carrying a base exception |
| `Helper.RedisentHelper.Keys` | src/redisent/helpers.py:148-174 | HKEYS of `redis_id` when given, else KEYS of the pattern or `*`; every listed name once, exactly the matching ones; failures wrapped under the op name |
| `Helper.RedisentHelper.Exists` | src/redisent/helpers.py:176-187 | HEXISTS when a name is given, else EXISTS, normalised to bool |
| `Helper.RedisentHelper.EntryType` | src/redisent/helpers.py:189-204 | with the check, `None` for an absent key; otherwise the TYPE text |
| `Helper.RedisentHelper.Get` | src/redisent/helpers.py:206-248 | absent: `RedisError` with extra attributes `redis_id`, `redis_name` when `throw_error`, else `None`; hash: the field, or every field without a name; otherwise the string |
| `Helper.RedisentHelper.Set` | src/redisent/helpers.py:250-281 | with the check, a clashing type raises before any write; otherwise HSET or SET, result the reply's truth, new store stated exactly; a helper whose client cannot be built or whose server is unreachable fails with the wrapped error naming the first block's op (the EXISTS probe with the check, the SET/HSET without), nothing written |
| `Helper.RedisentHelper.CheckSetType` | src/redisent/helpers.py:270-276 | the check passes iff the write may go ahead; a flat write over a hash gives the type-mismatch error |
| `Helper.RedisentHelper.Write` | src/redisent/helpers.py:278-281 | a value redis-py cannot encode fails with nothing written; otherwise HSET iff a name is given (WRONGTYPE over a string key), else SET; the result is the reply's truth, True for SET and whether the field is new for HSET; the new store is the old one with exactly that write; a failing connection gives the wrapped error naming the SET/HSET op, nothing written |
| `Helper.RedisentHelper.Delete` | src/redisent/helpers.py:283-309 | with the check an absent entry gives `None` and no command; a failing connection gives the failure of the check or of the delete; otherwise HDEL or DEL and whether something went, with exactly that removal (corrected; see Findings) |
| `Helper.DeleteOpAsWrittenMislabels` | src/redisent/helpers.py:294-299 | as written, a plain delete is labelled `set(...)` and a hash delete does not start with `hdel(` |
| `Helper.DeleteOpNamesCommand` | src/redisent/helpers.py:294-307 | the corrected label names `hdel` with key and field, or `delete`, and differs from the one written |
| `Decoding.TextDecode` | src/redisent/helpers.py:40-41 | bytes holding text decode to that text, a pickle stream does not decode; a non-bytes value passes through the current copy and raises AttributeError in the legacy copy |
| `Decoding.UnpickleWins` | src/redisent/helpers.py:34-36 | a pickle stream decodes to its value, whatever the fallbacks |
| `Decoding.DecodeValueInvertsDumps` | src/redisent/helpers.py:34-36 | decoding what `pickle.dumps` produced gives the value back |
| `Decoding.FallbackChain` | src/redisent/helpers.py:37-43 | non-pickle bytes go to the handler; without one to text when an encoding is given; else stay raw |
| `Decoding.EmptyBytesEscape` | src/redisent/helpers.py:35-37 | empty bytes raise EOFError, which neither copy catches |
| `Decoding.NonBytesValues` | redisent/helpers.py:105-114 | a non-bytes value passes the current copy (or goes to its handler) and raises TypeError in the legacy copy |
| `Decoding.DecodeList` | src/redisent/helpers.py:45-46 | a list decodes iff every element does, keeping length, order and each element's decoding; otherwise the error of the first element that fails |
| `Decoding.DecodeKey` | src/redisent/helpers.py:50 | without an encoding a key is kept |
| `Decoding.DecodeItems` | src/redisent/helpers.py:47-53 | the decoded dict has no more items than the input |
| `Decoding.DecodeItemsKeys` | src/redisent/helpers.py:47-53 | a dict that decodes has every key and value decoded, and exactly the rewritten keys |
| `Decoding.DecodeItemsKeepsEveryItem` | src/redisent/helpers.py:47-53 | when everything decodes and no two keys collide, one item per input item, in order |
| `Decoding.DecodeItemsErrPropagates` | src/redisent/helpers.py:48-51 | once the loop fails on an item, the whole dict fails with that error |
| `Decoding.DecodeAttempt` | redisent/helpers.py:94-123 | falsy input unchanged; lists elementwise; dicts to dicts; a scalar unchanged without encoding |
| `Decoding.HandleDecodeAttempt` | src/redisent/helpers.py:22-57 | the method with its dict loop equals `DecodeAttempt` of the current copy |
| `Decoding.DecodeItemsLoop` | src/redisent/helpers.py:48-51 | the loop gives exactly `DecodeItems` |
| `Decoding.DecodeInto` | src/redisent/helpers.py:49-51 | one pass extends the prefix's result by one item, and a failure is the whole dict's failure |
| `Decoding.DecodeEntries` | src/redisent/helpers.py:75-79 | with `first_handler` the raw reply goes to it and nothing is decoded; otherwise the chain with `final_handler` |
| `LegacyCodec.LegacyError` | redisent/errors.py:11-17 | message and base exception as given, command `Unknown` |
| `LegacyCodec.ConvertKey` | redisent/redishelper.py:43 | bytes holding text become that text, other keys stay; bytes that are not UTF-8 raise UnicodeDecodeError |
| `LegacyCodec.ConvertKeys` | redisent/redishelper.py:41-44 | the comprehension succeeds iff every key converts |
| `LegacyCodec.ConvertKeysRelabels` | redisent/redishelper.py:42-44 | when converted keys stay distinct, every key is renamed in place and values and order are kept |
| `LegacyCodec.TextKeysUnchanged` | redisent/redishelper.py:43 | a dict keyed by text comes back unchanged |
| `LegacyCodec.LoadsAll` | redisent/redishelper.py:353 | a failure of the comprehension is the plain exception `pickle.loads` raised, not a `RedisError` |
| `LegacyCodec.LoadsAllSucceeds` | redisent/redishelper.py:353 | the comprehension succeeds iff every value is a pickle stream |
| `LegacyCodec.LoadsAllInPlace` | redisent/redishelper.py:353 | with distinct keys every value is unpickled in place, keys kept |
| `LegacyCodec.EncodeMapping` | redisent/redishelper.py:51-62 | pickling succeeds iff the mapping is picklable and unpickles to it; a failure is a `RedisError` with extra attribute `entry` and a message starting `Error while encoding entry for key` |
| `LegacyCodec.EncodeEntryAsWrittenRejectsEntries` | redisent/redishelper.py:47-49 | as written, every entry fails with TypeError |
| `LegacyCodec.MappingOf` | redisent/redishelper.py:47-49 | a mapping is itself; an entry is its `as_dict()` |
| `LegacyCodec.EncodeEntry` | redisent/redishelper.py:46-62 | the entry's mapping, pickled; an `as_dict` failure escapes as it is (corrected; see Findings) |
| `LegacyCodec.DecodeEntry` | redisent/redishelper.py:64-71 | succeeds iff the bytes are a pickle stream, giving its value; else a `RedisError` with base exception |
| `LegacyCodec.DecodeInvertsEncode` | redisent/redishelper.py:46-71 | what `encode_entry` writes, `decode_entry` reads back as the mapping |
| `LegacyCodec.ReminderRoundTrip` | redisent/models.py:23-61 | a reminder encoded by `encode_entry` comes back from `decode_entry` and `from_dict` as itself |
| `LegacyCodec.EncodeRedisValue` | redisent/redishelper.py:73-81 | entries and mappings become their pickled bytes, or the encoding error; any other value passes unchanged (corrected; see Findings) |
| `LegacyCodec.EncodeRedisValueAsWritten` | redisent/redishelper.py:73-81 | as written, every entry fails with TypeError; any other value is encoded as the corrected `encode_redis_value` does |
| `LegacyCodec.DecodeRedisValue` | redisent/redishelper.py:83-91 | bytes go through `decode_entry`; anything else is returned unchanged |
| `LegacyCodec.DecodeRedisValueInvertsEncode` | redisent/redishelper.py:73-91 | decoding an encoded entry or mapping gives the mapping; a native non-bytes value comes back unchanged |
| `LegacyCodec.ParseResponse` | redisent/redishelper.py:93-102 | a truthy unpickled value is returned, or with an entry class the TypeError `from_dict` raises; text bytes are decoded or kept; empty bytes raise EOFError; non-bytes raise TypeError |
| `LegacyCodec.ParseResponseFalsyPickle` | redisent/redishelper.py:99-102 | a pickle of a falsy value is treated as not a pickle |
| `LegacyHelper.OpName` | redisent/redishelper.py:117 | the label is never empty, and is the given one when that is non-empty |
| `LegacyHelper.ConnectError` | redisent/redishelper.py:130-133 | a client that cannot be built gives a `RedisError` with the cause and command `Unknown` |
| `LegacyHelper.CommandError` | redisent/redishelper.py:138-141 | a failure in the block gives a `RedisError` with the cause, the label as command, and a message naming it |
| `LegacyHelper.CommandErrorNamesOp` | redisent/errors.py:31-37 | `str()` of such an error is `Redis Error with command "<label>": <message>` |
| `LegacyHelper.HostOf` | redisent/redishelper.py:109-113 | a leading `redis://` is cut off, any other URL is kept |
| `LegacyHelper.HostOfPrefixed` | redisent/redishelper.py:110-111 | cutting the scheme off `redis://host` gives `host` |
| `LegacyHelper.Build` | redisent/redishelper.py:32-39 | a given pool is kept; otherwise the base class raises NotImplementedError and `RedisHelper` builds a pool for the URL's host |
| `LegacyHelper.HGetLabelAsWrittenNamesHSet` | redisent/redishelper.py:297 | as written, `hget` labels its command `hset(...)`; the corrected label starts with `hget(` |
| `LegacyHelper.UnformattedLabelsIgnoreKey` | redisent/redishelper.py:326-346 | as written, the labels of `delete`, `hdelete` and `hgetall` are the same for every key; the corrected ones tell keys apart |
| `LegacyHelper.Absent` | redisent/redishelper.py:281-285 | `None` exactly with `missing_okay`, else a `RedisError` with the message and no base exception |
| `LegacyHelper.KeyValuesList` | redisent/redishelper.py:148-166 | the listed keys are the names, once each, as text when decoding and as bytes otherwise |
| `LegacyHelper.Respond` | redisent/redishelper.py:290-293 | with `decode_value` the reply goes through `decode_entry`; else text when asked; else raw |
| `LegacyHelper.RespondAfterSet` | redisent/redishelper.py:251-293 | a value stored by `set` comes back from `get` as the mapping it encoded |
| `LegacyHelper.HGetAllReply` | redisent/redishelper.py:346-356 | without either flag the reply is the raw dict; with only `decode_response` it is the dict with its keys converted to text, or the key conversion's failure under the `hgetall` label; with `decode_value` it succeeds iff every value unpickles and every key then converts, and any failure of either is the inner `RedisError` carrying `entries`, wrapped under the `hgetall` label |
| `LegacyHelper.HGetAllDecodes` | redisent/redishelper.py:352-354 | a hash of pickles comes back as one item per field, keyed by its text, holding the unpickled value |
| `LegacyHelper.ReplyLoads` | redisent/redishelper.py:353 | every value of such a reply is unpickled in place |
| `LegacyHelper.ReplyConverts` | redisent/redishelper.py:354 | converting the unpickled reply's keys gives the field texts |
| `LegacyHelper.HGetAllFailsOnText` | redisent/redishelper.py:352-356 | one value that is not a pickle fails the whole `hgetall` |
| `LegacyHelper.HSetAsWrittenFailsOnOverwrite` | redisent/redishelper.py:265-276 | as written, overwriting a field changes the store and still raises |
| `LegacyHelper.HSetAsWritten` | redisent/redishelper.py:265-276 | as written, the field is always written, and the call succeeds exactly when the field was new |
| `LegacyHelper.LegacyRedisHelper.constructor` | redisent/redishelper.py:29-30 | the helper keeps the pool it is given |
| `LegacyHelper.LegacyRedisHelper.Failure` | redisent/redishelper.py:115-141 | an unhealthy helper fails with a `RedisError` of redisent/errors.py carrying a base exception |
| `LegacyHelper.LegacyRedisHelper.Keys` | redisent/redishelper.py:148-157 | KEYS of the pattern or `*`, decoded when asked; exactly the matching keys |
| `LegacyHelper.LegacyRedisHelper.HKeys` | redisent/redishelper.py:159-166 | HKEYS: exactly the fields, decoded when asked; WRONGTYPE for a string key |
| `LegacyHelper.LegacyRedisHelper.Exists` | redisent/redishelper.py:168-170 | the EXISTS reply: 1 for a present key, else 0 |
| `LegacyHelper.LegacyRedisHelper.HExists` | redisent/redishelper.py:172-174 | whether the hash has the field; WRONGTYPE for a string key |
| `LegacyHelper.LegacyRedisHelper.HLen` | redisent/redishelper.py:176-182 | `None` for an absent key, else the number of fields |
| `LegacyHelper.LegacyRedisHelper.LLen` | redisent/redishelper.py:184-192 | `None` for an absent key; LLEN on a string or hash fails |
| `LegacyHelper.LegacyRedisHelper.Set` | redisent/redishelper.py:251-263 | entries and mappings encoded first, encoding errors unwrapped and before any write; SET then gives True (corrected; see Findings) |
| `LegacyHelper.LegacyRedisHelper.HSet` | redisent/redishelper.py:265-276 | encoded as for `set`; a successful HSET gives True, new field or not (corrected; see Findings) |
| `LegacyHelper.LegacyRedisHelper.Get` | redisent/redishelper.py:278-293 | absent: `None` or error per `missing_okay`; WRONGTYPE for a hash; otherwise the response of the GET reply |
| `LegacyHelper.LegacyRedisHelper.HGet` | redisent/redishelper.py:295-317 | the key is checked, then the field, each absence giving `None` or an error; otherwise the response of the HGET reply (corrected; see Findings) |
| `LegacyHelper.LegacyRedisHelper.Delete` | redisent/redishelper.py:319-327 | absent: `None` or error; otherwise DEL removes the key and gives True (corrected; see Findings) |
| `LegacyHelper.LegacyRedisHelper.HDelete` | redisent/redishelper.py:329-337 | only the field is checked; absent gives `None` or error; otherwise HDEL removes it and gives True (corrected; see Findings) |
| `LegacyHelper.LegacyRedisHelper.HGetAll` | redisent/redishelper.py:339-356 | absent: `None` or error; WRONGTYPE for a string; otherwise the decoded listing of the hash (corrected; see Findings) |
| `LegacyModels.KeepItems` | redisent/models.py:24 | the filter never adds items |
| `LegacyModels.KeptNames` | redisent/models.py:24 | a name is kept iff declared, not private, not `redis_id` and not `store_encoded` |
| `LegacyModels.AsDict` | redisent/models.py:23-24 | `as_dict` succeeds iff every field holds a value, else AttributeError |
| `LegacyModels.KeepDictOf` | redisent/models.py:24 | filtering `asdict` keeps exactly the kept names, in declaration order |
| `LegacyModels.AsDictItems` | redisent/models.py:23-24 | `as_dict` is every kept field with its `asdict` value, in declaration order |
| `LegacyModels.ConstructAttrs` | redisent/models.py:12-15 | `__init__` sets exactly the fields that get a keyword or a default |
| `LegacyModels.BaseEntryHasNoDict` | redisent/models.py:12-24 | a bare `RedisEntry()` never sets `redis_id`, so its `as_dict` fails |
| `LegacyModels.NoPrivateNames` | redisent/models.py:27-39 | no declared name of `Reminder` starts with `_` |
| `LegacyModels.ReminderNamesDistinct` | redisent/models.py:27-39 | the field names of `Reminder` are distinct |
| `LegacyModels.ReminderFlags` | redisent/models.py:14-39 | every field but `redis_id` is set by `__init__` and has a default |
| `LegacyModels.ReminderSchema` | redisent/models.py:14-39 | `Reminder` has the shape the other lemmas assume |
| `LegacyModels.ReminderKeeps` | redisent/models.py:23-24 | only `redis_id` and `store_encoded` are dropped from a reminder's `as_dict` |
| `LegacyModels.ReminderBaseNames` | redisent/models.py:14-15 | `Reminder` inherits `redis_id` and `store_encoded` |
| `LegacyModels.ShapeInitFields` | redisent/models.py:12-39 | `__init__` accepts exactly the declared names other than `redis_id` |
| `LegacyModels.PostInit` | redisent/models.py:41-43 | `__post_init__` sets `redis_id` to "reminders" and `store_encoded` to True and changes nothing else |
| `LegacyModels.Instantiate` | redisent/models.py:41-43 | a failure is a TypeError; a success is an instance of the class |
| `LegacyModels.InstantiateOk` | redisent/models.py:27-43 | construction succeeds iff every keyword names a field other than `redis_id` |
| `LegacyModels.InstantiateFields` | redisent/models.py:27-43 | the built instance has every field, the fixed id and flag, and each other field from its keyword or default |
| `LegacyModels.ConstructedNames` | redisent/models.py:27-39 | `__init__` sets every field but `redis_id` |
| `LegacyModels.ConstructedValues` | redisent/models.py:29-39 | each kept field holds its keyword or its default |
| `LegacyModels.NewReminder` | redisent/models.py:27-43 | `Reminder(**kwargs)` succeeds iff every keyword names a field other than `redis_id` |
| `LegacyModels.NewReminderFields` | redisent/models.py:27-43 | a new reminder has id "reminders", `store_encoded` True whatever was passed, and each other field from its keyword or default |
| `LegacyModels.ReminderKey` | redisent/models.py:45-47 | the key is as long as the member id's text, a colon and the trigger time's text together |
| `LegacyModels.ReminderKeyInjective` | redisent/models.py:45-47 | when member ids hold no colon, equal keys mean equal member ids and trigger times |
| `LegacyModels.FromDictKwargs` | redisent/models.py:50-59 | a keyword is collected iff its key is a declared field name |
| `LegacyModels.FromDictFailsOnlyOnRedisId` | redisent/models.py:50-61 | `from_dict` fails iff the dict has `redis_id`, with TypeError; otherwise it builds a reminder |
| `LegacyModels.FromDict` | redisent/models.py:50-61 | the loop gives exactly `Reminder(**collected)` |
| `LegacyModels.KwargsOfItems` | redisent/models.py:54-59 | from the items of given fields, exactly those fields are collected, with their values |
| `LegacyModels.KwargsOfAsDict` | redisent/models.py:50-59 | from `as_dict` exactly the kept fields are collected, with their values |
| `LegacyModels.RebuildFromAsDict` | redisent/models.py:23-61 | building from the keywords collected from `as_dict` gives the instance back |
| `LegacyModels.FromDictInvertsAsDict` | redisent/models.py:23-61 | `from_dict(r.as_dict())` is `r` for every reminder with plain values |
| `Blocking.PackageError` | redisent/helpers/__init__.py:21-27 | message and base exception as given, command `Unknown`, no extra attributes |
| `Blocking.ConnectError` | redisent/helpers/blocking.py:24-29 | a client that cannot be built gives a `RedisError` with the cause and a message naming the op |
| `Blocking.CommandError` | redisent/helpers/blocking.py:31-36 | a failure in the block gives a `RedisError` with the cause and a message naming the op |
| `Blocking.WrapperErrorsNameNoCommand` | redisent/helpers/blocking.py:22-36 | neither wrapper error records the op as its command; `str()` shows `Unknown` after a double space |
| `Blocking.Absent` | redisent/helpers/blocking.py:68-72 | `None` exactly with `missing_okay`, else the "Does not exist" error |
| `Blocking.Reply` | redisent/helpers/blocking.py:74-75 | no reply is `None`; bytes are kept, or decoded to text when asked |
| `Blocking.EncodingKeywordBreaksReads` | redisent/helpers/blocking.py:75 | as written, `get`, `hget` and `hkeys` always raise; as intended, a stored string comes back as bytes or text |
| `Blocking.HSetAsWrittenFailsOnOverwrite` | redisent/helpers/blocking.py:104-113 | as written, overwriting a field changes the store and still raises |
| `Blocking.HSetAsWritten` | redisent/helpers/blocking.py:104-113 | as written, the field is always written, and the call succeeds exactly when the field was new |
| `Blocking.BlockingRedisentHelper.constructor` | redisent/helpers/blocking.py:15-19 | the helper keeps the pool it is given |
| `Blocking.BlockingRedisentHelper.Failure` | redisent/helpers/blocking.py:22-36 | an unhealthy helper fails with a `RedisError` carrying a base exception |
| `Blocking.BlockingRedisentHelper.Keys` | redisent/helpers/blocking.py:38-47 | KEYS of the pattern or `*`, decoded when asked; exactly the matching keys |
| `Blocking.BlockingRedisentHelper.Exists` | redisent/helpers/blocking.py:49-52 | true iff EXISTS replied 1, i.e. the key is present |
| `Blocking.BlockingRedisentHelper.Set` | redisent/helpers/blocking.py:54-63 | SET of the value; its reply is always truthy, so True |
| `Blocking.BlockingRedisentHelper.Get` | redisent/helpers/blocking.py:65-75 | absent: `None` or error; otherwise one GET (corrected; see Findings) |
| `Blocking.BlockingRedisentHelper.Delete` | redisent/helpers/blocking.py:77-89 | absent: `None` or error; otherwise DEL removes the key and gives True |
| `Blocking.BlockingRedisentHelper.HKeys` | redisent/helpers/blocking.py:92-96 | the fields of the hash, decoded when asked; WRONGTYPE for a string key (corrected; see Findings) |
| `Blocking.BlockingRedisentHelper.HExists` | redisent/helpers/blocking.py:98-102 | whether the hash has the field; WRONGTYPE for a string key |
| `Blocking.BlockingRedisentHelper.HSet` | redisent/helpers/blocking.py:104-113 | a successful HSET gives True, new field or not, with exactly that write (corrected; see Findings) |
| `Blocking.BlockingRedisentHelper.HGet` | redisent/helpers/blocking.py:115-131 | the key is checked, then the field, each absence giving `None` or an error before any HGET; otherwise the field's value (corrected; see Findings) |
| `PoolMode.FormatRedisUrl` | redisent/helpers.py:66-74 | the result starts with `redis://`; a prefixed URL is unchanged, any other gets the prefix |
| `PoolMode.FormatRedisUrlIdempotent` | redisent/helpers.py:74 | formatting twice is formatting once |
| `PoolMode.HostOfFormatted` | redisent/redishelper.py:109-113 | `RedisHelper.build_pool` recovers the host from its formatted URL |
| `PoolMode.InferMode` | redisent/helpers.py:86-91 | an explicit mode is kept; otherwise async exactly for an aioredis pool |
| `PoolMode.WrapperFor` | redisent/helpers.py:161 | the async context manager exactly when `use_async` |
| `PoolMode.BuildArgs` | redisent/helpers.py:36-43 | ValueError iff neither pool nor URL; a given pool is kept; else a pool for the formatted URL; the mode is the builder's |
| `PoolMode.ModeHelper.constructor` | redisent/helpers.py:76-91 | the pool is kept and the mode is the inferred one |
| `PoolMode.Build` | redisent/helpers.py:24-43 | `build` gives a blocking helper on the chosen pool, or the ValueError |
| `PoolMode.BuildAsync` | redisent/helpers.py:45-64 | `build_async` gives an async helper on the chosen pool, or the ValueError |
| `PoolMode.BlockingConnectError` | redisent/helpers.py:163-171 | a client that cannot be built gives a `RedisError` with command `Unknown` |
| `PoolMode.BlockingCommandError` | redisent/helpers.py:173-178 | a failure in the block gives a `RedisError` naming the op (or `Unknown` for an empty op) |
| `PoolMode.BlockingErrorsTellCausesApart` | redisent/helpers.py:163-178 | only an error raised inside the block names the op as its command |
| `PoolMode.RedisConnection.constructor` | redisent/connection.py:37-43 | the pool is kept and `is_async` is the given one or inferred from the pool |
| `PoolMode.RedisConnection.Repr` | redisent/connection.py:45-46 | `RedisConnection(redis_pool="<pool>")` with exactly the pool's text inside the quotes |
| `PoolMode.BuildConnection` | redisent/connection.py:13-35 | a pool of the requested kind for the URL with `redis://` prefixed when missing |
| `PoolMode.PackageHelper.constructor` | redisent/helpers/__init__.py:53-54 | the pool is kept as given |
| `PoolMode.PackageBuild` | redisent/helpers/__init__.py:56-58 | the base `build` always raises NotImplementedError |

## Left out

- Async code: `AsyncRedisHelper` in redisent/redishelper.py, redisent/redis.py, redisent/model.py, redisent/helpers/async.py and `_wrapped_redis_async` of redisent/helpers.py are not part of this model. They add coroutine plumbing, not new rules.
- LegacyHelper.LegacyRedisHelper.Get and LegacyHelper.LegacyRedisHelper.HGet are `async def` in the source; they are modelled as they behave when awaited.
- redisent/pubsub.py (background listener threads) is not part of this model: it is concurrency.
- The pickle byte format and pickle's exact exception classes are not modelled. Pickle is a constructor codec: bytes are either a pickle stream of a value or the UTF-8 text of a string, and text bytes are never taken for a pickle stream.
- Building connection pools (`ConnectionPool.from_url`, `aioredis.create_redis_pool`), `get_connection` and the redis-py client objects are foreign. A pool is its kind, its URL and its text, and a client is the store plus two failure flags.
- Runtime type checks (`isinstance` against aioredis or redis classes, `asyncio.iscoroutinefunction`) are a tag or a flag.
- Logging, `RedisEntry.dump` (tabulate), and `RedisHelper.lindex`/`lrange` are not part of this model.
- The Reminder examples and `Reminder.build`, `from_redis` and `to_redis` are not part of this model: they depend on the clock, date parsing and float timestamps.
- redtest.py, tmp.py, redisent/entry.py (truncated) and docs are not part of this model.
- The race between an existence check and the command after it is not modelled: every call is sequential.
- Encodings: every encoding name is taken to be UTF-8, and the UTF-8 byte layout is not modelled.
- RedisServer.Matches: KEYS patterns handle `*` and `?` only. The `[...]` classes and backslash escapes are left out.
- LegacyHelper.LegacyRedisHelper.LLen: the store (`RedisServer.RedisStore`) holds strings and hashes only, no Redis lists. So LLEN of a present key is always WRONGTYPE here, and the list length that `llen` returns in the source is never produced. Lists serve only `llen`, `lindex` and `lrange`, and the last two are outside this model.
- PyValues.PyStr: `f'{value}'` of a bytes value is written `<bytes>`, not Python's `b'...'` text. Lists, dicts and entries are likewise their type name in angle brackets (`<list>`, `<dict>`, `<Reminder>`), not their repr. This affects the op labels built by `Helper.SetOp` (src/redisent/helpers.py:264-267), the failure text of `Entries.EncodeEntry` and `RedisErrors.AttrTexts`.
- RedisErrors.AttrTexts: `str()` of lists, dicts, entries and other objects is a placeholder naming the type. The texts for None, bools, ints, floats (by their `repr`) and strings are exact.
- LegacyModels.ReminderKey: `str()` of the float trigger time is its `repr`, taken as given text.
- Decoding.DecodeItemsKeepsEveryItem: when two keys are rewritten to the same key, the later item overwrites the earlier one in place. The model captures this (`DecodeItems`), but the lemma is stated only for distinct rewritten keys.
- Entries.HashEntryRoundTrip: stated only for entries whose values `asdict` leaves as they are and whose fields outside `get_entry_fields(True, False)` hold their defaults. Any other entry does not come back unchanged, because of the source's design.

## Findings

| source | as written | input that shows it | evidently intended | confidence | as-written member | corrected member |
|---|---|---|---|---|---|---|
| redisent/redishelper.py:49 | `encode_entry` calls `as_dict(include_redis_attrs=True, include_internal_attrs=False)`, keywords redisent/models.py's `as_dict` does not take | any `RedisEntry`, e.g. a `Reminder()` | encode the entry's `as_dict()` | not executed | `LegacyCodec.EncodeEntryAsWrittenRejectsEntries`, `LegacyCodec.EncodeRedisValueAsWritten` | `LegacyCodec.EncodeEntry`, `LegacyCodec.EncodeRedisValue`, `LegacyHelper.LegacyRedisHelper.Set`, `LegacyHelper.LegacyRedisHelper.HSet` |
| redisent/redishelper.py:271-274 | `hset` raises when the reply is 0, which HSET replies when an existing field is overwritten, after the write happened | hset of field `n` in a hash that already has `n` | report success of the write | not executed | `LegacyHelper.HSetAsWrittenFailsOnOverwrite`, `LegacyHelper.HSetAsWritten` | `LegacyHelper.LegacyRedisHelper.HSet` |
| redisent/helpers/blocking.py:108-111 | the same reply check in `BlockingRedisentHelper.hset` | hset of field `n` in a hash that already has `n` | report success of the write | not executed | `Blocking.HSetAsWrittenFailsOnOverwrite`, `Blocking.HSetAsWritten` | `Blocking.BlockingRedisentHelper.HSet` |
| redisent/helpers/blocking.py:75 | `get`, `hget` and `hkeys` pass `encoding=` to redis-py command methods that take no such keyword, so they always raise | any present key | GET (HGET, HKEYS) and decode the reply when an encoding is given | not executed | `Blocking.EncodingKeywordBreaksReads` | `Blocking.BlockingRedisentHelper.Get`, `Blocking.BlockingRedisentHelper.HGet`, `Blocking.BlockingRedisentHelper.HKeys` |
| src/redisent/helpers.py:296-299 | `delete` labels HDEL as `hdel"k", "n")` and DEL as `set("k")` | delete of key `k` | `hdel("k", "n")` and `delete("k")` | not executed | `Helper.DeleteOpAsWrittenMislabels` | `Helper.DeleteOpNamesCommand`, `Helper.RedisentHelper.Delete` |
| redisent/redishelper.py:297 | `hget` labels its command `hset(...)` | hget of any field | `hget(key=..., name=...)` | not executed | `LegacyHelper.HGetLabelAsWrittenNamesHSet` | `LegacyHelper.LegacyRedisHelper.HGet` |
| redisent/redishelper.py:326-346 | the labels of `delete`, `hdelete` and `hgetall` are plain strings, so `{key}` is never filled in | deletes of two different keys give the same label | f-strings naming the key | not executed | `LegacyHelper.UnformattedLabelsIgnoreKey` | `LegacyHelper.LegacyRedisHelper.Delete`, `LegacyHelper.LegacyRedisHelper.HDelete`, `LegacyHelper.LegacyRedisHelper.HGetAll` |
