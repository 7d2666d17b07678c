# jsgen, jsb and ds.h in Dafny

This project models the core of `my-c-stb`, a set of single-header C
libraries, and proves properties of the model. The modelled parts are:

- **jsgen** (`jsgen/jsgen.c`). This is a code generator. It reads C headers
  in which structs are marked `JSON`, `JSONP` or `JSONS`, records each
  struct's fields and their annotations (`alias`, `sized_by`, `jsgen_ignore`,
  `json_literal`), and writes C routines that parse and stringify those
  structs.
- **jsb** (`jsb.h`). This is the JSON builder that the generated code writes
  through. It is a nesting-state machine over a growable character buffer.
- **ds.h**. This is the container library that jsgen is built on: dynamic
  arrays, the string builder, a separately chained hash map, a singly linked
  list and hash functions.
- **The bump allocator** of `jsgen/jsgen.h`. The generated parsers allocate
  from it.

Each part is modelled in the form the C code takes:

- Code that updates state in place becomes a class. Its fields are updated
  by methods, under `modifies` clauses. Examples are the dynamic array `Vec`
  over an `array`, the hash map, the linked list, the jsb buffer and
  builder, the jsgen parser and the output `Source`.
- Loops become `while` loops with invariants. Examples are the memmove
  loops, the trim scans, the escaping loop and the resize loop.
- The pure classifiers and the shape of the generated code become
  functions. Lemmas are proved about them.

| module | file | models |
|---|---|---|
| `Wrappers` | wrappers.dfy | `Option` |
| `Arena` | arena.dfy | `jsgen_basic_alloc`, `jsgen_free` |
| `DynArray` | dynarray.dfy | `ds_da_reserve`, `append`, `append_many`, `pop`, `remove`, `insert`, `find`, `index_of` |
| `Strings` | strings.dfy | `_ds_sb_append`, `ds_sb_insert`, `ds_sb_ltrim`, `ds_sb_rtrim`, `ds_str_split` |
| `Hashing` | hashing.dfy | `_ds_hash_int`, `_ds_hash_long`, `_ds_hash_string` |
| `HashMap` | hashmap.dfy | `_ds_hm_resize`, `ds_hm_set`, `ds_hm_try`, `ds_hm_get`, `ds_hm_remove` |
| `LinkedList` | linkedlist.dfy | `ds_ll_push`, `ds_ll_append`, `ds_ll_pop` |
| `JsbSpec` | jsb_spec.dfy | jsb on values: escaping, integer text, the document state machine (`Doc`) |
| `JsonBuilder` | jsb.dfy | the `Jsb` struct and its buffer, proved against `JsbSpec` |
| `JsGenTypes` | jsgen_types.dfy | `Field`, `Model`, `get_jsp_type`, `get_jsb_type`, `js_getalias`, `is_json_initializer` |
| `JsGenParser` | jsgen_parser.dfy | `Parser`, `handle_id`, `parse_field`, `parse_field_annotation`, `handle_semicolon`, `post_process_model`, the token loop of `parse_file` |
| `JsGenEmitter` | jsgen_emit.dfy | `sb_cat_line`, `gen_parse_field_body`, `gen_stringify_field`, `generate_model_code`, `generate_all_code` |

The emitter describes generated code as a sequence of `Line(indent, code)`
values. A `Code` names one line template (an opcode) and carries its
arguments, such as field names, type names and the model name.
`CodeText` spells each template as jsgen spells it. `Render` turns lines
into characters the way `sb_cat_line` does: the indentation, then the text,
then a newline. A plain indent argument k gives 4k spaces. The one call
with `--indent` as its argument closes a pointer field's NULL check
(jsgen/jsgen.c:383). It is the line form `PreDecrement(v, code)`. The
macro puts its argument into the loop test `i < (indent) * 4`, so the
variable is decremented on every test. From indent v the brace gets 4v/5
spaces (2 spaces at the depth jsgen uses) instead of 4(v-1). The emitting methods are proved for any
spelling function. `GenerateAllCode` uses jsgen's own spelling. The lemmas
about names, order and nesting are stated on the line sequences.

Where a prose description of jsgen and its code disagree, the model follows
the code:

- Of the ignore annotations, only `jsgen_ignore` is recognised. A bare
  `ignore` is not (`JsGenParser.AnnotationOf`).
- A field's full type text is classified before its array flag is looked
  at. So `float *values sized_by(count)`, whose type text is `float*`, is
  read and written as one number, with no element loop
  (`JsGenEmitter.ScalarBeforeArray`). The same holds for `int*` and other
  scalar pointers.
- `is_field` is set by the first field and never cleared
  (`JsGenParser.Parser.HandleId`, `Run`).
- The `} else ` joiner of the key dispatch depends on the field index, not
  on how many tests came before. When the first field is a counter, the
  first test already begins with `} else ` (`JsGenEmitter.CounterFirstJoiner`).
- jsb writes `": "` after every key, with a space, even when pretty printing
  is off (`JsbSpec.CompactExample`).

## Model

| member | source | states |
|---|---|---|
| Arena.Allocate | jsgen/jsgen.h:86-93 | The result is NULL exactly when the size exceeds the room left, and then the offset is unchanged. Otherwise the block is the old offset and the offset rises by exactly the size. The offset never exceeds 8 MiB. |
| Arena.UsedAfter | jsgen/jsgen.h:86-93 | Over any run of requests, the offset never decreases and never passes the region's end. |
| Arena.BlocksWithin | jsgen/jsgen.h:90-92 | Every block handed out by a run lies between the starting offset and the final offset. |
| Arena.BlocksDisjoint | jsgen/jsgen.h:90-92 | The blocks of any run are pairwise disjoint, in increasing address order. |
| Arena.AdjacentBlocks | jsgen/jsgen.h:90-92 | Two successful allocations in a row are adjacent: the second starts where the first ends. |
| Arena.BumpArena.constructor | jsgen/jsgen.h:83-84 | The static offset starts at 0. |
| Arena.BumpArena.Alloc | jsgen/jsgen.h:86-93 | The allocation and the new offset are those of `Allocate`. A returned block lies inside the region. |
| Arena.BumpArena.Free | jsgen/jsgen.h:95-97 | The offset is reset to 0, so any request that fits the region gets the base address. |
| DynArray.GrowFrom | ds.h:113-115 | The growth loop ends at a capacity that holds `expected`. That capacity is never below the start, and is less than 1.5 times `expected` unless no growth was needed. |
| DynArray.ReservedCapacity | ds.h:107-119 | The capacity after a reserve holds `expected` and never shrinks. It is unchanged when `expected` already fits, and starts from 1024 when it was 0. |
| DynArray.InsertAtElements | ds.h:186-194 | Insertion places the item at the index, keeps the elements before it and shifts the rest up by one. |
| DynArray.RemoveRangeElements | ds.h:171-179 | Removal keeps the elements before the index and shifts the ones after the range down by `del`. |
| DynArray.RemoveUndoesInsert | ds.h:171-194 | Removing the one element just inserted restores the array. |
| DynArray.HeaderExamples | ds.h:169-184 | The header's examples hold: [1,2,3] with 42 at 1 gives [1,42,2,3], and removing 2 at 1 from [1,2,3,4,5] gives [1,4,5]. |
| DynArray.OpenGap | ds.h:190-192 | On the block, shifting the tail up and copying the items in gives the old prefix, then the items, then the old tail. |
| DynArray.CloseGap | ds.h:174-176 | On the block, moving the tail down over the range gives the old elements without that range. |
| DynArray.MoveUp | ds.h:190-191 | memmove up by `gap`: the moved range holds the old elements, and everything below and above it is unchanged. |
| DynArray.MoveDown | ds.h:174-175 | memmove down by `gap`: the moved range holds the old elements from `gap` places higher, and everything else is unchanged. |
| DynArray.Fill | ds.h:177 | memset: the range holds the zero value and nothing outside it changes. |
| DynArray.CopyInto | ds.h:152-153 | memcpy: the range holds the items and nothing outside it changes. |
| DynArray.Vec.constructor | ds.h:97-102 | A zero-initialised array has no data, no elements and no capacity. |
| DynArray.Vec.Reserve | ds.h:107-119 | The capacity becomes `ReservedCapacity` and the elements are kept. The block is the same one when `expected` already fits. |
| DynArray.Vec.CopyTail | ds.h:152-154 | With room available, the items are copied after the last element in the same block. |
| DynArray.Vec.Append | ds.h:131-135 | The elements become the old ones plus the item, with the capacity a reserve for one more gives. |
| DynArray.Vec.AppendMany | ds.h:148-155 | The elements become the old ones plus the items. No items leaves the block as it was. |
| DynArray.Vec.Pop | ds.h:160-164 | Returns the last element and drops it; the block stays. |
| DynArray.Vec.Remove | ds.h:171-179 | With the index inside the array, the elements become `RemoveRange` of the old ones and the vacated slots hold zero. Otherwise nothing changes. |
| DynArray.Vec.Insert | ds.h:186-194 | The index is clamped to the length, and the elements become the old ones with the item at the clamped index. |
| DynArray.Vec.Find | ds.h:250-261 | Returns the first element satisfying the predicate, or none when no element does. |
| DynArray.Vec.IndexOf | ds.h:267-278 | Returns the index of the first element satisfying the predicate, or -1 when none does. |
| Strings.CStr | ds.h:290 | What `strlen` sees: the longest NUL-free prefix, ending at the first NUL when there is one. |
| Strings.CStrNoNul | ds.h:290 | A string without NUL is its own C string. |
| Strings.TrimLeftShape | ds.h:376-388 | Left trimming keeps a suffix, drops only whitespace, and leaves text that does not start with whitespace. |
| Strings.TrimRightShape | ds.h:393-405 | Right trimming keeps a prefix, drops only whitespace, and leaves text that does not end with whitespace. |
| Strings.TrimLeftExact | ds.h:378-381 | Left trimming removes exactly the maximal leading run of space, tab, newline and carriage return. |
| Strings.TrimRightExact | ds.h:395-398 | Right trimming removes exactly the maximal trailing whitespace run. |
| Strings.TrimLeftIdempotent | ds.h:376-388 | Left trimming twice is the same as once. |
| Strings.TrimRightIdempotent | ds.h:393-405 | Right trimming twice is the same as once. |
| Strings.TrimAllSpace | ds.h:376-405 | Text made only of whitespace trims to empty from either side. |
| Strings.ConcatSnoc | ds.h:289-294 | Appending one more argument extends the text by that argument's C string. |
| Strings.AppendPart | ds.h:290-293 | One argument's C string is appended, with room for a byte after it. |
| Strings.AppendNext | ds.h:289-294 | After argument n, the text is the start plus the C strings of the first n+1 arguments. |
| Strings.Terminate | ds.h:296-297 | The text is unchanged and a NUL follows it in the block. |
| Strings.AppendStrings | ds.h:285-298 | The text becomes the old text plus the C strings of all arguments, followed by a NUL. |
| Strings.Insert | ds.h:351-358 | NULL or an index past the end changes nothing. Otherwise the text becomes the old prefix, the string's C string and the old suffix. |
| Strings.LeadingSpaces | ds.h:378-381 | The scan stops where the left-trimmed text begins. |
| Strings.TrailingSpaces | ds.h:395-398 | The scan stops where the right-trimmed text ends. |
| Strings.Ltrim | ds.h:376-388 | The text becomes its left trim in the same block. When the block has room after the text, the byte after the text moves with it. When nothing is cut, the block is unchanged. |
| Strings.Rtrim | ds.h:393-405 | The text becomes its right trim. A NUL is written at the new end only when something was cut, and otherwise the block is unchanged. |
| Strings.Split | ds.h:891-907 | An empty iterator gives an empty part. Otherwise the part is the longest separator-free prefix. The iterator moves past the separator, or to the end when there is none, and always gets shorter. |
| Hashing.ToUint32 | ds.h:423 | The cast to uint32_t is the key modulo 2^32. |
| Hashing.ToUint64 | ds.h:432 | The cast to uint64_t is the key modulo 2^64. |
| Hashing.HashInt | ds.h:422-430 | The int hash is a 32-bit value. |
| Hashing.Mix32Undone | ds.h:424-428 | Undoing the five mixing steps in reverse order gives back the key: the xor-shifts by 16, 4 and 15 and the multiplications by 9 and by 0x27d4eb2d are each invertible on uint32_t. |
| Hashing.Mix32Injective | ds.h:424-428 | Two uint32_t keys mix to the same value exactly when they are equal. |
| Hashing.HashIntInjective | ds.h:422-430 | Two int keys have the same hash exactly when they are equal, so int keys never collide before the table reduces the hash. |
| Hashing.HashIntExamples | ds.h:422-430 | The int hash mixing on 0, 1, 42 and -1 gives the values worked out from the C steps. |
| Hashing.HashLongExamples | ds.h:431-441 | The long hash mixing on 0, 1 and -1 gives the values worked out from the C steps. |
| Hashing.SignedByte | ds.h:455-457 | A byte read through a signed char lies in [-128, 128) and agrees with the byte modulo 256. |
| Hashing.Djb2 | ds.h:452-460 | The string hash is a size_t value. |
| Hashing.Djb2Snoc | ds.h:456-458 | Each byte takes the hash to hash*33 + the signed byte, modulo 2^64. |
| Hashing.Djb2Examples | ds.h:452-460 | The hash of "", "a", "id", and of a byte above 127, has the value worked out from the C loop. |
| Hashing.HashString | ds.h:452-460 | NULL hashes to 0, and any other string to the djb2 of its bytes up to the first NUL. |
| HashMap.BucketFindMember | ds.h:612-617 | In a bucket without repeated keys, the scan finds v for k exactly when the entry (k, v) is in it. |
| HashMap.BucketFindNone | ds.h:612-617 | The scan finds nothing exactly when no entry has the key. |
| HashMap.AppendFresh | ds.h:590-593 | Appending an entry with an absent key keeps keys distinct and adds exactly that key. |
| HashMap.ReplaceValue | ds.h:584-589 | Overwriting an entry's value changes what is found for its key and nothing else. |
| HashMap.RemoveEntryDistinct | ds.h:658 | Taking an entry out keeps the keys distinct. |
| HashMap.RemoveEntryMembers | ds.h:658 | Taking out entry p keeps exactly the entries with other keys. |
| HashMap.RemoveEntryKey | ds.h:658 | Taking out the entry of a key leaves no entry with that key. |
| HashMap.RemoveEntryOther | ds.h:658 | Taking out an entry does not change what is found for any other key. |
| HashMap.RemoveEntry | ds.h:658 | Taking out entry p drops its key and changes no other lookup. |
| HashMap.RemoveResultAsWritten | ds.h:651-663 | As written, the removal's pointer is NULL exactly when the key is absent. |
| HashMap.RemoveResultAsWrittenIsWrong | ds.h:651-663 | As written, the value read through the returned pointer is a zero (single entry) or the next entry's value, not the removed one. |
| HashMap.KeyIndex | ds.h:612-617 | The index where the scan stops: the first entry with the key, or the bucket's length. |
| HashMap.KeyIndexFind | ds.h:612-617 | The scan's result is the value at that index. |
| HashMap.ReplaceBucket | ds.h:584-593 | Replacing a key's bucket by one that differs only at that key keeps the table well formed and changes lookups of that key only. |
| HashMap.RepresentsUpdate | ds.h:576-594 | A table that changes only one key's answer represents the map updated, or with that key removed. |
| HashMap.AppendToBucket | ds.h:558-559 | Appending an entry to the bucket of its hash keeps the number of buckets. |
| HashMap.MoveStep | ds.h:557-559 | Copying one entry keeps the new table well formed and extends what it holds by exactly that entry. |
| HashMap.NextBucket | ds.h:555-561 | A fully copied bucket completes the outer loop step. |
| HashMap.AllMoved | ds.h:555-563 | When every bucket is copied, the new table represents the same map. |
| HashMap.MoveBucket | ds.h:556-560 | The inner resize loop copies every entry of one bucket to the bucket of its hash. |
| HashMap.Rehash | ds.h:550-561 | The new table has the requested number of buckets and holds every old entry in the bucket of its hash. |
| HashMap.ScanIndex | ds.h:612-617 | The scan loop stops at the first entry with the key, or at the end. |
| HashMap.SetInBucket | ds.h:584-593 | The key now maps to the value and other keys are unchanged. An entry is added exactly when the key was absent. |
| HashMap.RemoveFromBucket | ds.h:655-661 | The key's entry is removed and its value returned, read before removal. Other keys are unchanged. |
| HashMap.HashMap.constructor | ds.h:534-546 | A zero-initialised map has no table, no entries and holds the empty map. |
| HashMap.HashMap.Resize | ds.h:548-564 | The table grows to the reserve capacity of twice its length (or of 1), and the map and size are unchanged. |
| HashMap.HashMap.Try | ds.h:607-620 | Returns the value stored for the key, or nothing when it is absent. An empty table always gives nothing. |
| HashMap.HashMap.Get | ds.h:631-642 | Returns the value stored for the key, or the zero value when it is absent. |
| HashMap.HashMap.Set | ds.h:576-594 | The map becomes the old map with the key set to the value. The size grows exactly when the key was absent. |
| HashMap.HashMap.Remove | ds.h:651-663 | Returns the removed value, or nothing. The key leaves the map and the size drops exactly when it was present. |
| LinkedList.Node.constructor | ds.h:718-721 | A node holds its value and next pointer. |
| LinkedList.LinkedList.constructor | ds.h:722-726 | A zero-initialised list is empty, with NULL head and tail. |
| LinkedList.LinkedList.Push | ds.h:738-749 | The value goes in front of the list and the size grows by one. The new head links to the old head. |
| LinkedList.LinkedList.Append | ds.h:761-773 | The value goes at the end of the list and the size grows by one. The new node becomes the tail, and also the head when the list was empty. |
| LinkedList.LinkedList.Pop | ds.h:782-792 | Returns the old head, which held the first value. The rest of the list remains, the size drops by one, and head and tail are NULL when the list becomes empty. |
| LinkedList.AppendAsWritten | ds.h:761-773 | As written, the new node is linked from the old tail and becomes the tail, but its next pointer is indeterminate. |
| LinkedList.PopAsWritten | ds.h:782-792 | As written, head moves to the old head's next pointer, and tail is cleared only when that pointer is NULL. |
| LinkedList.AppendThenPopAsWritten | ds.h:761-792 | As written, appending to an empty list and popping leaves size 0 with an indeterminate head and a tail that still points at the popped node. |
| LinkedList.AppendThenPop | ds.h:761-792 | With the next pointer set, the same calls return the value and leave an empty list. |
| JsbSpec.Doubling | jsb.h:176-178 | Doubling ends at a capacity that holds the request. It is never below the start, and less than twice the request when growth was needed. |
| JsbSpec.Grow | jsb.h:173-182 | The capacity is unchanged when the request fits. Otherwise it is at least max(request, 32) and less than twice that. |
| JsbSpec.Quoted | jsb.h:202-228 | An escaped string starts and ends with a double quote. |
| JsbSpec.EscapeSnoc | jsb.h:205-226 | Escaping works byte by byte from the front. |
| JsbSpec.UnescapeEscape | jsb.h:202-228 | Reading an escaped body back gives the original bytes without backspace, carriage return and NUL: no quote is left unescaped and no escape is lost. |
| JsbSpec.NatText | jsb.h:344-347 | The decimal text of a natural is non-empty and all digits. |
| JsbSpec.IntText | jsb.h:344-347 | The `%d` text of an int is non-empty and NUL-free. |
| JsbSpec.ParseNatText | jsb.h:345 | Decimal digits read back give the number. |
| JsbSpec.IntTextRoundTrip | jsb.h:345 | The `%d` text of any int reads back as that int. |
| JsbSpec.IntTextExamples | jsb.h:345 | `%d` gives "0", "7", "-42" and "-2048" for those values. |
| JsbSpec.IntTextExtremes | jsb.h:345 | `%d` gives "-2147483648" for INT_MIN and "2147483647" for INT_MAX. |
| JsbSpec.ShapedPush | jsb.h:279 | Opening a level below the nesting limit keeps the stack's shape. |
| JsbSpec.ShapedPop | jsb.h:287 | Closing a level above 0 keeps the stack's shape. |
| JsbSpec.Spaces | jsb.h:253-255 | The indentation is n spaces, and none for a negative n. |
| JsbSpec.Lead | jsb.h:276-277 | The text before an item starts with a comma exactly when it is not the first item. |
| JsbSpec.Init | jsb.h:259-264 | A fresh document is empty, at level 0, and accepts a value. |
| JsbSpec.Open | jsb.h:273-305 | Opening succeeds exactly at level 0 or where a value is allowed. A failure changes nothing. Success at level 0 starts a new document, then pushes the kind with no item written and no key pending. The text gains the lead and the bracket; a new document holds only the pretty-print break and the bracket. |
| JsbSpec.Close | jsb.h:285-315 | Closing succeeds exactly when the top level is open and of that kind. A failure changes nothing. Success drops one level, and returning to level 0 ends the document. The text gains the pretty-print break of the outer level and the bracket. |
| JsbSpec.Key | jsb.h:317-326 | A key succeeds exactly in an object with no key pending, and then leaves a key pending. A failure changes nothing. The text gains the lead, the quoted key up to its NUL, and ": ". |
| JsbSpec.Value | jsb.h:340-384 | A value succeeds exactly where `jsb_check_val` allows one. The text becomes the old text, the lead and the value. A failure changes nothing. |
| JsbSpec.StringText | jsb.h:328-338 | A NULL string is written as `null`, and any other as its first `len` bytes escaped and quoted. |
| JsbSpec.Fresh | jsb.h:90-97 | A zero-initialised Jsb is a well-formed document. |
| JsbSpec.NoTopLevelValue | jsb.h:239-245 | Between documents at level 0, every value and every key is refused with -1 and no change. |
| JsbSpec.CloseUndoesOpen | jsb.h:273-315 | Closing the container just opened inside another restores the stack. |
| JsbSpec.PlainKeys | jsb.h:202-228 | Plain keys escape to themselves in quotes. |
| JsbSpec.CompactExample | jsb.h:317-326 | In compact mode, an object with two keys is written as {"id": 7,"ok": true}: a space after each colon, none after the comma, then END. |
| JsbSpec.PrettyExample | jsb.h:250-257 | With width 2, the same shape starts with a newline and indents the key, with no break between a key and its value. |
| JsonBuilder.Buffer.constructor | jsb.h:84-88 | A zero-initialised buffer is empty, with no block. |
| JsonBuilder.Buffer.Srealloc | jsb.h:173-182 | The capacity becomes `Grow(capacity, request)` and the text is kept. |
| JsonBuilder.Buffer.Sappend | jsb.h:183-187 | The byte is stored after the text, and the text grows by it only when it is not NUL. |
| JsonBuilder.Buffer.Sappends | jsb.h:188-196 | The text grows by the C string and a NUL follows it. |
| JsonBuilder.Buffer.EscapedNString | jsb.h:202-228 | The text grows by the first `len` bytes, escaped and quoted. |
| JsonBuilder.Buffer.EscapeOne | jsb.h:206-225 | One loop pass appends the escape of one byte. |
| JsonBuilder.EscapeStep | jsb.h:205-226 | Escaping one more byte extends the escaped prefix. |
| JsonBuilder.Jsb.constructor | jsb.h:90-97 | `{.pp = pp}` is the fresh document with that width. |
| JsonBuilder.Jsb.CheckVal | jsb.h:239-245 | Returns 0 exactly in an array, after a key in an object, or at the start of a document, and -1 otherwise. |
| JsonBuilder.Jsb.PrettyPrint | jsb.h:250-257 | Appends a newline and level*pp spaces, only when pp is not 0 and no key is pending. |
| JsonBuilder.Jsb.Lead | jsb.h:276-277 | Appends the comma (unless first) and the pretty-print break. |
| JsonBuilder.Jsb.Init | jsb.h:259-264 | The fields become the fresh document of `JsbSpec.Init`. |
| JsonBuilder.Jsb.EndDocument | jsb.h:266-271 | Refused above level 0. At level 0, a NUL follows the text and state[0] becomes END. |
| JsonBuilder.Jsb.Begin | jsb.h:273-305 | Result and new state are those of `JsbSpec.Open`. |
| JsonBuilder.Jsb.Push | jsb.h:276-281 | Appends the lead and the bracket, and pushes the kind with the first item pending. |
| JsonBuilder.Jsb.BeginObject | jsb.h:273-283 | Result and new state are those of `Open` with OBJECT and '{'. |
| JsonBuilder.Jsb.BeginArray | jsb.h:295-305 | Result and new state are those of `Open` with ARRAY and '['. |
| JsonBuilder.Jsb.Finish | jsb.h:285-315 | Result and new state are those of `JsbSpec.Close`. |
| JsonBuilder.Jsb.Pop | jsb.h:287-289 | Drops a level and appends the break and the bracket. |
| JsonBuilder.Jsb.EndObject | jsb.h:285-293 | Result and new state are those of `Close` with OBJECT and '}'. |
| JsonBuilder.Jsb.EndArray | jsb.h:307-315 | Result and new state are those of `Close` with ARRAY and ']'. |
| JsonBuilder.Jsb.Key | jsb.h:317-326 | Result and new state are those of `JsbSpec.Key`. |
| JsonBuilder.Jsb.PutKey | jsb.h:319-324 | An allowed key writes the lead, the quoted key and ": ", and leaves a key pending. |
| JsonBuilder.Jsb.PutValue | jsb.h:376-383 | An allowed value writes the lead and the text, with no item first and no key pending. |
| JsonBuilder.Jsb.Null | jsb.h:376-384 | Result and new state are those of `Value` with `null`. |
| JsonBuilder.Jsb.NString | jsb.h:328-338 | Result and new state are those of `Value` with `StringText`: `null` for NULL, else the quoted bytes. |
| JsonBuilder.Jsb.PutString | jsb.h:330-337 | An allowed string writes the lead and its first `len` bytes quoted. |
| JsonBuilder.Jsb.Int | jsb.h:340-351 | Result and new state are those of `Value` with the `%d` text. |
| JsonBuilder.Jsb.Bool | jsb.h:366-374 | Result and new state are those of `Value` with `true` or `false`. |
| JsGenTypes.JspType | jsgen/jsgen.c:62-78 | The decode table gives only "number", "boolean" or "string". |
| JsGenTypes.JsbType | jsgen/jsgen.c:80-96 | The encode table gives only "int", "number", "bool" or "string". |
| JsGenTypes.Unstarred | jsgen/jsgen.c:70-76 | The leaf of a type text is the text without its trailing stars. |
| JsGenTypes.JspTypeByLeaf | jsgen/jsgen.c:62-78 | Stripping one star per call classifies a type by its leaf: int, float, double, long and size_t give number; bool gives boolean; "char" behind at least one star gives string; anything else gives NULL. |
| JsGenTypes.JsbTypeByLeaf | jsgen/jsgen.c:80-96 | The same for encoding: int, long and size_t give int; float and double give number; bool gives bool; char* gives string. |
| JsGenTypes.TablesAgree | jsgen/jsgen.c:62-96 | The two tables know the same types, and map numbers to int or number, booleans to bool, and strings to string. |
| JsGenTypes.TypeTableExamples | jsgen/jsgen.c:62-96 | Examples: int, double, size_t, bool, char* and float* are known; char, struct names, Point* and "*" are not. |
| JsGenTypes.KeyName | jsgen/jsgen.c:58-60 | The key is the alias exactly when has_alias is set, and the field name otherwise. |
| JsGenTypes.IsMarker | jsgen/jsgen.c:172-174 | Exactly the six identifiers JSON, JSGEN_JSON, JSONS, JSGEN_JSONS, JSONP and JSGEN_JSONP start a model. |
| JsGenTypes.MarkerParses | jsgen/jsgen.c:177-185 | Every marker but JSONS and JSGEN_JSONS asks for parse routines. |
| JsGenTypes.MarkerStringifies | jsgen/jsgen.c:177-185 | Every marker but JSONP and JSGEN_JSONP asks for stringify routines. |
| JsGenTypes.MarkerKinds | jsgen/jsgen.c:177-185 | Each marker asks for at least one kind of routine, and only JSON and JSGEN_JSON ask for both. |
| JsGenParser.Lexer.constructor | jsgen/jsgen.c:227-232 | The lexer starts at the first token with an empty string buffer. |
| JsGenParser.Lexer.Next | jsgen/jsgen.c:233 | Reads the next token, reporting the end of input. Only identifiers and string literals overwrite the string buffer. |
| JsGenParser.Lexer.Declarator | jsgen/jsgen.c:147-157 | Reports an optional '*' and then the name, when it is an identifier, and which tokens were read. |
| JsGenParser.Lexer.Argument | jsgen/jsgen.c:116-119 | The annotation argument is the lexer's string after two more tokens: the text of the later of those two that is an identifier or string literal, else the string as it was (`ArgumentText`). The parse point moves two tokens on, or to the end. |
| JsGenParser.Lexer.SkipTo | jsgen/jsgen.c:166-167 | Reads until the given punctuation, or the end of input. |
| JsGenParser.AnnotationOf | jsgen/jsgen.c:112-139 | `jsgen_ignore` is the only ignore spelling. A bare `ignore`, `typedef` and `struct` are not annotations. |
| JsGenParser.NewField | jsgen/jsgen.c:141-165 | The type text is the prefix, the base name, and '*' exactly when a star followed. The simple type is the base name. The field is a pointer after a star or a bracket, and an array after a bracket. No annotation is set. |
| JsGenParser.FirstNamed | jsgen/jsgen.c:102-107 | The inner search finds the first field with the name, or reports that none has it. |
| JsGenParser.Marked | jsgen/jsgen.c:102-107 | Marking changes only counter flags. |
| JsGenParser.Resolve | jsgen/jsgen.c:98-110 | Resolution keeps the number of fields. |
| JsGenParser.MarkStep | jsgen/jsgen.c:99-109 | One outer-loop step keeps the loop's invariant. |
| JsGenParser.ResolvedAll | jsgen/jsgen.c:98-110 | When the loop ends, the fields are `Resolve` of the originals. |
| JsGenParser.FirstNamedSameNames | jsgen/jsgen.c:102-107 | Marking counters does not change which field is first with a name. |
| JsGenParser.MarkedIsFirst | jsgen/jsgen.c:102-106 | A field that gets marked is the first of its name. |
| JsGenParser.ResolveResolves | jsgen/jsgen.c:98-110 | After resolution, every sized_by counter that names an existing field is marked. |
| JsGenParser.ResolveOnlyFirst | jsgen/jsgen.c:102-106 | A later field sharing a name is never marked by resolution. |
| JsGenParser.ResolveNoMatch | jsgen/jsgen.c:98-110 | When no counter name matches a field, resolution changes nothing. |
| JsGenParser.ResolveKeeps | jsgen/jsgen.c:98-110 | Resolution keeps names, types and annotations, and never clears a mark. |
| JsGenParser.Parser.constructor | jsgen/jsgen.c:229-230 | The parser starts with the given model list, an empty model, level 0 and every flag cleared. |
| JsGenParser.Parser.PostProcessModel | jsgen/jsgen.c:98-110 | Only the working model's fields change, to `Resolve` of them. |
| JsGenParser.Parser.MarkCounter | jsgen/jsgen.c:102-107 | The first field with the name, if any, becomes a counter. Nothing else changes. |
| JsGenParser.Parser.ParseFieldAnnotation | jsgen/jsgen.c:112-139 | Handled exactly when a field has been seen and the word is an annotation. Ignore drops the last field if there is one. Alias and sized_by set the argument read two tokens on. json_literal sets the flag. With no last field, the non-ignore annotations report the NULL dereference. |
| JsGenParser.Parser.ParseField | jsgen/jsgen.c:141-170 | A field is appended exactly when a name identifier follows the optional '*'. The field is `NewField` of the prefix, the type name, the star, the name and whether '[' follows (`Declared`). The token after the name is only looked at. |
| JsGenParser.Parser.MarkIfArray | jsgen/jsgen.c:160-169 | A '[' after the name makes the last field an array and a pointer. The read position is restored. |
| JsGenParser.Parser.HandleId | jsgen/jsgen.c:176-211 | A marker enables generation and sets parse and stringify by its kind. Before a marker nothing changes. Otherwise a leading `const` is stepped over, and the identifier after it, at the parse point after it, has exactly the effect `WordHandled` gives (see HandleWord). is_field is never cleared. |
| JsGenParser.Parser.HandleWord | jsgen/jsgen.c:189-210 | The effect is `WordHandled` of the identifier and the parse point. `typedef` sets in_typedef. A first `struct` sets in_struct, and a second sets in_substruct. After a field, jsgen_ignore drops the last field. Any other annotation fails exactly when there is no field; otherwise it rewrites the last field with `Annotate` and the argument two tokens on. At depth 0 the word names the model, with "struct " added outside a typedef. At depth 1 exactly the field parse_field reads is added (`Declared`), with "struct " before a nested struct's type; in_substruct is cleared and is_field is set. Any other identifier changes nothing. |
| JsGenParser.Parser.HandleSemicolon | jsgen/jsgen.c:213-221 | in_substruct is always cleared. At depth 0 of a struct, the resolved model is appended, the working model emptied, and in_struct, in_typedef and can_generate cleared. |
| JsGenParser.Parser.Run | jsgen/jsgen.c:233-254 | Earlier models are never changed, and every appended model has its counters resolved. A parse-error token stops the loop. Input without a marker changes nothing. |
| JsGenParser.ParseFile | jsgen/jsgen.c:223-257 | The model list is only extended, every new model is resolved, -1 needs a parse-error token, and input without a marker adds nothing. |
| JsGenEmitter.LineTextShape | jsgen/jsgen.c:50-56 | A line is its indentation in spaces, the text unchanged, and one newline. A plain indent k gives 4*k spaces. |
| JsGenEmitter.CountDownClosed | jsgen/jsgen.c:50-56 | The macro's loop with the decrementing test `i < (--indent) * 4` runs ceil((4(v-1)-i)/5) times from counter i and indent v. |
| JsGenEmitter.PreDecrementSpaces | jsgen/jsgen.c:383 | `sb_cat_line(sb, --indent, ...)` from indent v writes 4v/5 spaces. For v >= 2 that is at least one space and fewer than the 4(v-1) of a plain indent v-1. |
| JsGenEmitter.AppendSpacesCountingDown | jsgen/jsgen.c:52-53 | The indentation loop with `--indent` as its bound appends exactly `CountDownSpaces(0, indent)` spaces. |
| JsGenEmitter.RenderAppend | jsgen/jsgen.c:50-56 | Rendering two runs of lines one after the other gives the concatenation of their renderings. |
| JsGenEmitter.DispatchDeeper | jsgen/jsgen.c:399-409 | Every line of the key dispatch sits at depth 2 or deeper, inside the key loop. |
| JsGenEmitter.StringifyFieldsDeeper | jsgen/jsgen.c:474-476 | Every line written for the fields starts with at least 2 spaces. All of them sit at depth 2 or deeper exactly when no written field is a pointer, since a pointer field's closing brace has 2 spaces. |
| JsGenEmitter.RoutineDeclares | jsgen/jsgen.c:391-397 | A routine whose body lies one level in declares exactly its header at depth 0. |
| JsGenEmitter.JsonLiteralParse | jsgen/jsgen.c:266-282 | A json_literal field copies the raw text in fifteen lines. |
| JsGenEmitter.ParseFieldShape | jsgen/jsgen.c:259-338 | A known scalar starts with jsp_value and an error check. An array opens with jsp_begin_array and ends with a check of the close. A nested pointer is set to NULL on a JSON null. A nested struct is parsed in place. |
| JsGenEmitter.ParseFieldDeeper | jsgen/jsgen.c:259-338 | No statement of a field body is shallower than the depth asked for. |
| JsGenEmitter.StringParseDeeper | jsgen/jsgen.c:283-294 | The string-copy statements sit at or below the depth asked for. |
| JsGenEmitter.ArrayParseDeeper | jsgen/jsgen.c:298-323 | The array statements sit at or below the depth asked for. |
| JsGenEmitter.ScalarParse | jsgen/jsgen.c:262-297 | A number or boolean field is read, checked and stored from the jsp member of its kind. |
| JsGenEmitter.StringPointerParse | jsgen/jsgen.c:283-291 | A char* field measures the string, then copies it to the heap when it is non-empty and sets NULL otherwise. |
| JsGenEmitter.PrecisionArg | jsgen/jsgen.c:362 | The extra argument is ", 5" exactly for jsb_number. |
| JsGenEmitter.StringifyFieldLines | jsgen/jsgen.c:340-385 | A counter field writes nothing, and any other field writes at least its key and a value. A pointer field's NULL check closes with the `--indent` line. |
| JsGenEmitter.StringifyFieldShape | jsgen/jsgen.c:340-385 | The key line is followed by the value lines. A pointer field is wrapped in a NULL check that opens first at depth ind. It closes last with `PreDecrement(ind + 1, Close)`, a brace with 4(ind+1)/5 spaces. |
| JsGenEmitter.StringifyFieldDeeper | jsgen/jsgen.c:340-385 | A field's block sits at the depth ind asked for exactly when it is not a written pointer field or ind is 0. Every line but a pointer field's closing brace does. Every line starts with at least 4(ind+1)/5 spaces. |
| JsGenEmitter.PointerGuarded | jsgen/jsgen.c:342-384 | Inside a pointer field's NULL check, the key and value lie one level deeper. |
| JsGenEmitter.NumberPrecision | jsgen/jsgen.c:362 | A value classified as number is written with jsb_number and precision 5. |
| JsGenEmitter.UncountedArray | jsgen/jsgen.c:364-375 | An array without a counter is written as begin and end only. |
| JsGenEmitter.ScalarBeforeArray | jsgen/jsgen.c:259-383 | `float *values sized_by(count)` is written and read as a single number, with no element loop. Its NULL check closes with the text "  }" plus a newline: 2 spaces. |
| JsGenEmitter.DispatchClauses | jsgen/jsgen.c:399-409 | The key tests at depth 2 are one per non-counter field, in declaration order, joined by "} else " from field index 1 on. |
| JsGenEmitter.CounterFirstJoiner | jsgen/jsgen.c:401-405 | With a counter first, the only test starts with "} else ". |
| JsGenEmitter.LaterTestJoins | jsgen/jsgen.c:404-405 | A later key test is the first test's text with "} else " in front. |
| JsGenEmitter.ParseRestDeclares | jsgen/jsgen.c:427-466 | After `_parse_<simple>` come exactly `parse_<simple>`, `_parse_<simple>_list` and `parse_<simple>_list`. |
| JsGenEmitter.ParseDeclares | jsgen/jsgen.c:389-467 | The parse half declares `_parse_`, `parse_`, `_parse_..._list` and `parse_..._list`, in that order. |
| JsGenEmitter.StringifyRestDeclares | jsgen/jsgen.c:484-512 | After `_stringify_<simple>` come the indent function, its macro, the list function and its macro. |
| JsGenEmitter.StringifyDeclares | jsgen/jsgen.c:468-513 | The stringify half declares `_stringify_`, `stringify_..._indent`, `stringify_`, `stringify_..._list_indent` and `stringify_..._list`, in that order. |
| JsGenEmitter.ModelDeclarations | jsgen/jsgen.c:387-514 | A model's code declares the parse routines exactly when it parses, then the stringify routines exactly when it stringifies. |
| JsGenEmitter.KeyPosition | jsgen/jsgen.c:474-476 | Field i's key line comes after the lines of all earlier fields. |
| JsGenEmitter.KeyLine | jsgen/jsgen.c:474-476 | The key line of each non-counter field lies at its position in any longer run of fields. |
| JsGenEmitter.KeyInField | jsgen/jsgen.c:347 | Every non-counter field writes its key line. |
| JsGenEmitter.KeyPlaced | jsgen/jsgen.c:474-476 | The stringify block writes each non-counter field's key at its position. |
| JsGenEmitter.KeysInOrder | jsgen/jsgen.c:474-476 | Keys appear in declaration order. |
| JsGenEmitter.Source.constructor | jsgen/jsgen.c:517 | The string builder starts empty. |
| JsGenEmitter.Source.Append | jsgen/jsgen.c:518 | `str_append` extends the text by the string. |
| JsGenEmitter.AppendSpaces | jsgen/jsgen.c:52-53 | The loop appends n spaces. |
| JsGenEmitter.CatLine | jsgen/jsgen.c:50-56 | `sb_cat_line` appends the line's text, for a plain indent and for `--indent`. |
| JsGenEmitter.EmitLines | jsgen/jsgen.c:50-56 | A run of `sb_cat_line` calls appends the rendered lines. |
| JsGenEmitter.GenParseFieldBody | jsgen/jsgen.c:259-338 | Appends the rendering of `ParseFieldLines`. |
| JsGenEmitter.GenStringifyField | jsgen/jsgen.c:340-385 | Appends the rendering of `StringifyFieldLines`, including the closing brace of the NULL check with the spaces the decrementing loop writes. |
| JsGenEmitter.EmitClause | jsgen/jsgen.c:402-408 | One clause appends the key test, the body one level deeper, and the indentation for what follows. |
| JsGenEmitter.EmitDispatchStep | jsgen/jsgen.c:402-408 | One turn of the key loop extends the dispatch by field i, and skips counters. |
| JsGenEmitter.EmitClauses | jsgen/jsgen.c:399-409 | The key loop appends the whole dispatch and the indentation for the fallthrough. |
| JsGenEmitter.EmitDispatch | jsgen/jsgen.c:399-414 | The dispatch is followed by "} else {", or by "{" when the model has no fields. |
| JsGenEmitter.GenerateParse | jsgen/jsgen.c:389-467 | The parse half appends the rendering of the four parse routines. |
| JsGenEmitter.EmitFieldsStep | jsgen/jsgen.c:475 | One turn appends field i's lines. |
| JsGenEmitter.EmitFields | jsgen/jsgen.c:474-476 | The field loop appends every field's lines in declaration order. |
| JsGenEmitter.GenerateStringify | jsgen/jsgen.c:468-513 | The stringify half appends the rendering of the stringify routines. |
| JsGenEmitter.GenerateModelCode | jsgen/jsgen.c:387-514 | Appends the parse part when the model parses, then the stringify part when it stringifies. |
| JsGenEmitter.EmitModels | jsgen/jsgen.c:519-521 | Appends the code of each model in order. |
| JsGenEmitter.GenerateAllCode | jsgen/jsgen.c:516-525 | The output is the two includes followed by the code of each model in order. |
| JsGenEmitter.AllDeclarations | jsgen/jsgen.c:519-521 | The generated file declares each model's routines in turn, in the order the models were read. |

## Left out

- http.h is not part of this model. It wraps libcurl network calls.
- `main` (argument handling, directory walking) and the file reading and
  writing of `parse_file` and `generate_all_code` are left out. They are
  I/O. `GenerateAllCode` returns the text that would be written.
- The C lexer (`stb_c_lexer.h`) is not part of this model. Its output is
  a sequence of tokens, and its string buffer is overwritten only by
  identifiers and string literals.
- JsGenParser.Lexer.SkipTo: the C loop that skips to `]` does not stop at
  the end of input. The model stops there, so an unterminated `[` is not
  modelled as a hang.
- The fixed 128-byte name buffers of `Field` and `Model` are unbounded
  strings here. `strcpy` overflow is not modelled.
- What the generated code does when it runs (decoding through jsp.h, round
  trips) is left out. The model states what text is generated, not what
  that text computes.
- `JsGenEmitter.Source` stands for jsgen's `String` builder and keeps only
  its text. Its growth is the `Strings`/`DynArray` model.
- JsGenEmitter.EmitClause: the C code appends "} else " and the key test in
  two calls. The model appends them as one piece with the same text.
- JsGenEmitter.EmitLines: the emitting methods are proved for any spelling
  of the line templates. Only `GenerateAllCode` fixes jsgen's spelling,
  `CodeText`.
- Generated code is described by opcodes (`Code`) rather than strings. This
  keeps the line structure visible to the proofs. `CodeText` gives the
  characters.
- `ds_sb_appendf` and `ds_sb_prependf` are left out. They depend on
  vsnprintf formatting.
- `ds_sb_include` is left out. It is a `strstr` call.
- `ds_sb_trim` is not a separate member. It is `Rtrim` after `Ltrim`.
- `ds_da_prepend`, `ds_da_last`, `ds_da_first`, `ds_da_zero`,
  `ds_da_free`, `ds_da_foreach` and `ds_hm_foreach` are not separate
  members. They are one-line uses of the modelled operations, or memory
  release.
- Logging, `DS_TODO`, `DS_UNREACHABLE`, file and directory I/O
  (`ds_read_entire_file`, `ds_write_entire_file`, `ds_mkdir_p`) and
  `_ds_hash_pointer` are left out.
- `_ds_hash_float` and `_ds_eq_float` are left out. They involve floating
  point and union type-punning.
- The `_Generic` choice of hash and equality is left out. The hash is a
  field of the map, and key equality is Dafny equality.
- The 0.75 load factor is the integer test 4*size >= 3*length.
- Allocation failure is left out. The C code checks it with `assert` after
  realloc/malloc, so the model assumes it always succeeds. Freeing memory
  is also left out.
- DynArray.Vec.Remove: requires `idx + del <= length` when `idx < length`.
  Otherwise the C memmove size wraps around and its behaviour is undefined.
- DynArray.ReservedCapacity: excludes a capacity of 1, from which the C
  growth loop (cap + cap/2) would never grow.
- DynArray.Vec.Pop: requires a non-empty array. The C code asserts only a
  non-NULL block, and decrements past 0 otherwise.
- Strings.Ltrim: requires room after the text whenever there is leading
  whitespace to cut. In that case the C memmove copies `length - i + 1`
  bytes, reading `data[length]`, which lies outside a full block.
- DynArray.Vec.IndexOf: returns the index as an unbounded integer. The C
  conversion `(int)_i` of an index at or above 2^31 does not fit an `int`,
  and that result is not modelled.
- HashMap.HashMap.Get: requires a non-empty table. The C code takes the
  hash modulo 0 there.
- HashMap.HashMap.Remove: requires a non-empty table, for the same reason.
- Hashing.HashLong: its value is stated by `HashLongExamples` only. It has
  no general contract beyond its bit-vector definition. Unlike the int hash,
  it is not proved injective, although each of its steps is invertible on
  uint64_t.
- `jsb_number` and `jsb_date_fmt` are left out. They use `%.*f` on a double
  and `localtime`/`strftime`.
- JsonBuilder.Jsb.Begin: requires `level < 63`, so the state stack of
  JSB_MAX_NESTING entries cannot overflow.
- JsonBuilder.Jsb.BeginObject: inherits `level < 63` from Begin, for the same reason.
- JsonBuilder.Jsb.BeginArray: inherits `level < 63` from Begin, for the same reason.
- JsonBuilder.Jsb.Int: takes a 32-bit int; snprintf's failure path
  (n < 0) cannot occur for it and is not modelled.
- The marker macros of jsgen.h (`JSON`, `alias`, `sized_by`, ...) expand to
  nothing and carry no behaviour.

## Findings

| source | as written | input that shows it | evidently intended | confidence | as-written member | corrected member |
|---|---|---|---|---|---|---|
| ds.h:651-663 | `ds_hm_remove` takes the address of the matching entry's value, then `ds_da_remove` moves the next entry into that slot (or zeroes it). The returned pointer therefore reads the next entry's value, or zero. | A bucket [(1, 7)] removing key 1 gives a pointer to 0. A bucket [(1, 7), (2, 8)] gives a pointer to 8. | The removed value, 7. | not executed | HashMap.RemoveResultAsWrittenIsWrong | HashMap.HashMap.Remove |
| ds.h:761-773 | `ds_ll_append` never sets the new node's `next`, which keeps whatever malloc left there. | Append 42 to an empty list, then pop. The head becomes indeterminate instead of NULL, and the tail is not cleared. | The new node's `next` is NULL, so popping the only node leaves head and tail NULL. | not executed | LinkedList.AppendThenPopAsWritten | LinkedList.AppendThenPop |
