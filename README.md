# pcc core, modelled in Dafny

pcc compiles a small subset of Python to C. The compiler has these stages:

- a lexer;
- two parsers that lower Python into an intermediate representation (IR), plus an older front end;
- three C code generators.

The generated C links against one of two runtimes. The modular runtime is the `runtime/rt_*.c` files. The single-file runtime, used by the early code generator, is `runtime/runtime.c`. This project models them all. The modules follow the source files:

| module | models |
|---|---|
| `Lexer` | `pcc/frontend/lexer.py`: token conversion and the token stream |
| `PyAst` | the part of Python's `ast` that the parsers read, as a datatype |
| `IR` | `pcc/ir/nodes.py`: the IR nodes, and the reference definitions of the names a program defines before use |
| `ParserV1`, `ParserV2` | `pcc/frontend/parser_v1.py` (an AST walker) and `pcc/frontend/parser_v2.py` (a recursive-descent parser over tokens, as a class with a cursor) |
| `LegacyFrontend` | `pcc/frontend.py` |
| `CodegenC` | `pcc/codegen_c.py`: the typed generator on the single-file runtime |
| `BackendCodegen` | `pcc/backend/codegen.py`: the generator on the modular runtime's arbitrary-precision integers |
| `BackendFast` | `pcc/backend/codegen_fast.py`: the generator on native `long long` integers |
| `RtError`, `RtExc`, `RtString`, `RtStringEx`, `RtStringNum`, `RtList`, `RtDict`, `RtBigint`, `RtMath` | `runtime/rt_error.c` … `runtime/rt_math.c` |
| `RuntimeInt`, `RuntimeStr` | `runtime/runtime.c`: its integers and its strings |
| `Wrappers`, `Decimal`, `Limbs`, `CInt`, `Growth` | shared helpers: Option and Result; decimal text of integers; base-10^9 limb values; the C and Python integer operators; capacity doubling |

How the model is built:

- The IR, the AST and the generated C text are datatypes and strings.
- Code that builds results step by step is modelled as methods with loops and their invariants. This covers the parsers' and generators' statement loops, and the runtime's digit and limb loops.
- Runtime objects that the C code updates in place are classes. Their buffers are arrays or sequences, and each operation states the new state.
- C integer widths are written out where the code depends on them: `size_t` and `uint64_t` wrap-around, the `int64_t` range, and truncating division. Signed overflow, which C leaves undefined, is modelled as the hardware's two's-complement wrap where the code reaches it (`RtMath.Wrap64`, `RtMath.WrapSquare`). The sums listed under "Left out" are stated without wrap-around.
- An error that the source raises or records becomes a `Result`, an error code or an error-state object.
- Operations are paired with a reference function, an inverse or an invariant, and a lemma or the method's own contract relates the two. The exceptions are listed under "Left out".

## Model

| member | source | states |
|---|---|---|
| RtError.ErrorString | runtime/rt_error.c:38-56 | one fixed text per code, "Unknown error" for RT_ERROR_UNKNOWN and for every value outside the enumeration; each text fits the 256-byte buffer and has no NUL |
| RtError.ErrorStringsDistinct | runtime/rt_error.c:38-56 | the six named codes other than RT_ERROR_UNKNOWN have pairwise different texts |
| RtError.StoredMessage | runtime/rt_error.c:22-28 | what strncpy of 255 bytes plus the forced terminator leaves: a prefix of the C string, the whole of it when it is shorter than the buffer, exactly 255 bytes otherwise |
| RtError.ErrorState.constructor | runtime/rt_error.c:10-15 | the static initial record: RT_OK, empty message, no file, line 0 |
| RtError.ErrorState.Set | runtime/rt_error.c:17-29 | code, file and line stored as given; the message is the stored form of the given text, or of the code's own text when it is NULL; an error is pending exactly when the code is not RT_OK |
| RtError.ErrorState.Clear | runtime/rt_error.c:31-36 | back to RT_OK with empty message, no file and line 0, so no error is pending |
| RtError.DefaultMessageWhole | runtime/rt_error.c:25-27 | the code's own text is stored without truncation when the message is NULL |
| RtError.CString | runtime/rt_error.c:23 | the characters a C string pointer denotes: the longest NUL-free prefix, followed by a NUL when shorter than the buffer, the whole sequence when it has no NUL |
| RtList.PyIndex | runtime/rt_list.c:58-64 | the index is accepted exactly when -len <= idx < len; a negative one counts from the end; any other raises IndexError "list index out of range" |
| RtList.NegativeIndexMirrors | runtime/rt_list.c:59-60 | index k - len reaches the same element as k |
| RtList.IntList.constructor | runtime/rt_list.c:17-23 | len 0, cap 0, no storage, no elements |
| RtList.IntList.Clear | runtime/rt_list.c:25-31 | storage released, len and cap 0, no elements |
| RtList.IntList.Ensure | runtime/rt_list.c:33-41 | a no-op (same block) when cap >= need; otherwise a fresh block of the capacity the doubling loop reaches from cap, or from 4 when cap is 0; elements and len unchanged |
| RtList.IntList.Append | runtime/rt_list.c:43-48 | the elements become the old ones followed by v; len grows by one; cap as ensure computes it for len + 1 |
| RtList.IntList.Get | runtime/rt_list.c:54-65 | the result is PyIndex of the elements |
| RtList.Init | runtime/rt_list.c:17-23 | NULL gives RT_ERROR_INVALID; otherwise RT_OK and an empty list |
| RtList.Append | runtime/rt_list.c:43-48 | NULL gives RT_ERROR_INVALID; otherwise RT_OK and v appended |
| RtList.Len | runtime/rt_list.c:50-52 | the length, 0 for NULL |
| RtList.Get | runtime/rt_list.c:54-65 | NULL raises TypeError "list is NULL"; otherwise PyIndex of the elements |
| Growth.GrownCapacityBounds | runtime/rt_list.c:33-41 | grown capacity is at least the old one and the need, equals the old one when it sufficed, and is below twice the need when it grew past the start value |
| Growth.DoubleUntil | runtime/rt_list.c:36 | the doubling loop computes Doubled: the least start * 2^k that covers the need |
| RtExc.ExcName | runtime/rt_exc.c:73-83 | every kind has a non-empty name without spaces |
| RtExc.ExcNameInjective | runtime/rt_exc.c:73-83 | two kinds share a name exactly when they are the same kind |
| RtExc.PushCtx | runtime/rt_exc.c:13-17 | the context becomes the top and links to the old top; every other link is kept; the chain stays well formed |
| RtExc.PopCtx | runtime/rt_exc.c:19-28 | succeeds exactly when the context is the top (otherwise the abort); the new top is its saved link, the links are kept |
| RtExc.PushPop | runtime/rt_exc.c:13-28 | popping the context just pushed gives back the old top |
| RtExc.PushAll | runtime/rt_exc.c:13-17 | pushing a sequence keeps the chain well formed and leaves the last context on top |
| RtExc.NestedTryRestores | runtime/rt_exc.c:13-28 | properly nested pushes and pops of distinct contexts never abort and end at the top they started from |
| RtExc.PopAllFrame | runtime/rt_exc.c:19-28 | unwinding a sequence does not depend on the link of a context outside it |
| RtExc.RepushedContextCycles | runtime/rt_exc.c:15 | pushing a context twice overwrites its saved link, so two pops leave it on top |
| RtExc.Report | runtime/rt_exc.c:30-38 | the unhandled report starts with "<name>: " |
| RtExc.TransferOf | runtime/rt_exc.c:46-51 | a jump to the top context when there is one; otherwise exit status 1 with the report |
| RtExc.ExcState.constructor | runtime/rt_exc.c:10-11 | no handler and the cleared record |
| RtExc.ExcState.TryPush | runtime/rt_exc.c:13-17 | NULL is ignored; otherwise PushCtx; the exception record is untouched |
| RtExc.ExcState.TryPop | runtime/rt_exc.c:19-28 | NULL is ignored; the abort happens exactly for a non-top context and changes nothing; otherwise PopCtx |
| RtExc.ExcState.Raise | runtime/rt_exc.c:40-52 | the record holds type, message, file and line; the handler stack is unchanged; control goes where TransferOf says |
| RtExc.ExcState.Reraise | runtime/rt_exc.c:54-60 | the current record goes where TransferOf says |
| RtExc.ExcState.Current | runtime/rt_exc.c:62-64 | the current record |
| RtExc.ExcState.Clear | runtime/rt_exc.c:66-71 | the record is reset to Exception with no message, file or line; the stack is kept |
| RtDict.StrEq | runtime/rt_dict.c:16-21 | true exactly when the two strings have the same bytes |
| RtDict.Find | runtime/rt_dict.c:63-68 | the first position holding the key, or none when no entry holds it |
| RtDict.StoredKey | runtime/rt_dict.c:71 | the stored copy is the key itself when it has no NUL |
| RtDict.SetAsWrittenNulFree | runtime/rt_dict.c:60-76 | for a NUL-free key the update as written is the intended one |
| RtDict.SetExactIsUpdate | runtime/rt_dict.c:60-76 | the intended update is a map update: the key gives the new value, other keys keep theirs, the length grows exactly for a new key, keys stay distinct |
| RtDict.FindUnique | runtime/rt_dict.c:63-68 | a position holding the key with no earlier one is where the scan stops |
| RtDict.NulKeyLost | runtime/rt_dict.c:71 | after setting "a\0b" the stored key is "a" and "a\0b" is not found |
| RtDict.NulKeysCollide | runtime/rt_dict.c:71 | setting "a\0b" then "a\0c" stores two entries under the key "a" |
| RtDict.Dict.constructor | runtime/rt_dict.c:23-30 | no entries, len 0, cap 0 |
| RtDict.Dict.Clear | runtime/rt_dict.c:32-45 | every key released, both blocks freed, no entries |
| RtDict.Dict.Ensure | runtime/rt_dict.c:47-58 | same blocks when cap >= need; otherwise fresh blocks of the doubled capacity from max(cap, 4); entries kept |
| RtDict.Dict.Scan | runtime/rt_dict.c:63-68 | the first position whose key is byte-equal to the given one |
| RtDict.Dict.Set | runtime/rt_dict.c:60-76 | the entries become SetAsWritten of the old ones: overwrite in place when found, otherwise append the NUL-truncated copy |
| RtDict.Dict.Overwrite | runtime/rt_dict.c:65 | only the value at the found position changes |
| RtDict.Dict.Push | runtime/rt_dict.c:71-74 | one entry appended at position len; the blocks and cap unchanged |
| RtDict.Dict.Get | runtime/rt_dict.c:78-88 | the value of the first equal key, or KeyError "key not found" |
| RtDict.Set | runtime/rt_dict.c:60-76 | NULL gives RT_ERROR_INVALID; otherwise RT_OK and Dict.Set's entries |
| RtDict.Get | runtime/rt_dict.c:78-88 | NULL raises TypeError "dict is NULL"; otherwise Dict.Get's result |
| RtDict.Len | runtime/rt_dict.c:90-92 | the number of entries, 0 for NULL |
| RtDict.Init | runtime/rt_dict.c:23-30 | NULL gives RT_ERROR_INVALID; otherwise RT_OK and no entries |
| RtString.Text | runtime/rt_string.h:20-24 | a well-formed string has exactly len characters |
| RtString.CChars | runtime/rt_string.c:54-58 | a C string argument's characters: none for NULL, up to the first NUL otherwise |
| RtString.FromCStr | runtime/rt_string.c:50-73 | the C string's characters; NULL and "" give the empty string without a block; otherwise capacity len + 1 |
| RtString.Concat | runtime/rt_string.c:88-114 | length a.len + b.len and a's characters followed by b's; an empty total is the empty string; otherwise capacity len + 1 |
| RtString.ConcatMonoid | runtime/rt_string.c:88-114 | concatenation is associative on the characters, with the empty string as unit on both sides |
| RtString.FromCStrText | runtime/rt_string.c:50-73 | a NUL-free string rebuilt from its characters has the same characters |
| RtString.StrRef.Reserve | runtime/rt_string.c:15-37 | unchanged when the capacity suffices; otherwise the capacity doubled from max(cap, 16) until it covers the request; characters kept |
| RtString.StrRef.AppendCStr | runtime/rt_string.c:116-135 | the C string's characters follow the old ones and len grows by their count; unchanged for NULL or ""; capacity as reserve gives for len + 1 |
| RtString.StrRef.Clear | runtime/rt_string.c:75-84 | the empty string without a block |
| RtString.CheckNull | runtime/rt_error.h:94-99 | NULL records RT_ERROR_INVALID with "s is NULL", file "rt_string.c" and the checking line, as RT_SET_ERROR passes `__FILE__` and `__LINE__`, and returns the code; otherwise nothing is recorded |
| RtString.Init | runtime/rt_string.c:41-48 | NULL gives RT_ERROR_INVALID with "s is NULL" recorded at rt_string.c line 42; otherwise the empty string and the record untouched |
| RtString.AppendCStr | runtime/rt_string.c:116-135 | NULL gives RT_ERROR_INVALID with "s is NULL" recorded at rt_string.c line 117; otherwise the characters appended and the record untouched |
| RtStringEx.Copy | runtime/rt_string_ex.c:46-61 | a fresh well-formed string holding exactly the given characters; the empty string without a block when there are none |
| RtStringEx.UpperChar | runtime/rt_string_ex.c:19-24 | ASCII lower-case letters map to the upper-case letter 32 codes below; every other character is unchanged |
| RtStringEx.LowerChar | runtime/rt_string_ex.c:26-31 | ASCII upper-case letters map to the lower-case letter 32 codes above; every other character is unchanged |
| RtStringEx.Substring | runtime/rt_string_ex.c:35-62 | empty from a start at or past the end; a length of 0 or one running past the end gives the rest; otherwise exactly the length characters from start |
| RtStringEx.SubstringStr | runtime/rt_string_ex.c:35-62 | a fresh string holding the substring's characters |
| RtStringEx.CopyOfWhole | runtime/rt_string_ex.c:35-62 | the substring from 0 of the whole length is a copy of the string |
| RtStringEx.SliceFrom | runtime/rt_string_ex.c:64-66 | empty from a start at or past the end, otherwise everything from start |
| RtStringEx.SliceToZeroKeepsAll | runtime/rt_string_ex.c:68-73 | as written, an end of 0 on a non-empty string returns the whole string |
| RtStringEx.SliceTo | runtime/rt_string_ex.h:47-54 | the prefix of length min(end, len): the characters before the exclusive end |
| RtStringEx.SliceToAgrees | runtime/rt_string_ex.c:68-73 | the code and the corrected slice agree on every input except an end of 0 on a non-empty string |
| RtStringEx.SearchFrom | runtime/rt_string_ex.c:86-92 | a result is an occurrence at or after the scan's start |
| RtStringEx.SearchFromFirst | runtime/rt_string_ex.c:86-92 | the scan returns the first occurrence from its start, and fails only when there is none |
| RtStringEx.FindSpec | runtime/rt_string_ex.c:77-93 | not found for an empty pattern or a start at or past the end; a result is an occurrence at or after start |
| RtStringEx.FindSpecFirst | runtime/rt_string_ex.c:77-93 | no occurrence precedes the result, and not found (for a non-empty pattern and start inside the string) means there is none from start on |
| RtStringEx.Find | runtime/rt_string_ex.c:77-93 | the method's loop returns exactly the first occurrence the specification describes |
| RtStringEx.FindCStr | runtime/rt_string_ex.c:95-105 | a NULL pattern is not found; otherwise the find on the pattern's characters up to its NUL |
| RtStringEx.RFindSpec | runtime/rt_string_ex.c:107-119 | not found for an empty pattern or one longer than the string; a result is an occurrence |
| RtStringEx.SearchDown | runtime/rt_string_ex.c:112-118 | a result is an occurrence at or before the scan's start |
| RtStringEx.SearchDownLast | runtime/rt_string_ex.c:112-118 | the backward scan returns the last occurrence at or before its start, and fails only when there is none |
| RtStringEx.RFindSpecLast | runtime/rt_string_ex.c:107-119 | no occurrence follows the result, and not found for a non-empty pattern means there is none |
| RtStringEx.RFind | runtime/rt_string_ex.c:107-119 | the method's backward loop returns exactly the last occurrence |
| RtStringEx.Contains | runtime/rt_string_ex.c:121-123 | true exactly when find from 0 succeeds |
| RtStringEx.StartsWith | runtime/rt_string_ex.c:125-131 | true exactly when the prefix is a prefix of the characters |
| RtStringEx.EndsWith | runtime/rt_string_ex.c:133-139 | true exactly when the suffix fits and the last characters equal it |
| RtStringEx.LexCompare | runtime/rt_string_ex.c:143-155 | the sign of the comparison is -1, 0 or 1, and 0 exactly for equal strings |
| RtStringEx.LexCompareAntisymmetric | runtime/rt_string_ex.c:143-155 | swapping the operands negates the result, and a proper prefix comes first |
| RtStringEx.Compare | runtime/rt_string_ex.c:143-155 | rt_str_compare's sign is the byte-lexicographic order of the characters |
| RtStringEx.Equals | runtime/rt_string_ex.c:157-163 | true exactly when the characters are equal, which is when compare gives 0 |
| RtStringEx.CompareIgnoreCaseSpec | runtime/rt_string_ex.c:165-180 | the result is -1, 0 or 1, and 0 only for strings of equal length |
| RtStringEx.CompareIgnoreCase | runtime/rt_string_ex.c:165-180 | the method's loop gives the specification's result |
| RtStringEx.IgnoreCaseIsCaseBlind | runtime/rt_string_ex.c:165-180 | a string compares equal, ignoring case, to its upper-cased form |
| RtStringEx.MapChars | runtime/rt_string_ex.c:184-230 | the same length, with the conversion applied at every position |
| RtStringEx.ConvertFrom | runtime/rt_string_ex.c:198-200 | the conversion loop keeps what was already written and converts every later position |
| RtStringEx.ToUpper | runtime/rt_string_ex.c:184-206 | a fresh string with every character upper-cased |
| RtStringEx.ToLower | runtime/rt_string_ex.c:208-230 | a fresh string with every character lower-cased |
| RtStringEx.CapitalizeSpec | runtime/rt_string_ex.c:232-255 | capitalising keeps the length |
| RtStringEx.Capitalize | runtime/rt_string_ex.c:232-255 | a fresh string with the first character upper-cased and the rest lower-cased |
| RtStringEx.CaseConversionProperties | runtime/rt_string_ex.c:19-31 | upper-casing keeps the length, changes only lower-case letters, is idempotent, and lower-casing its result equals lower-casing the original |
| RtStringEx.TrimLeft | runtime/rt_string_ex.c:259-266 | a suffix of the text, not starting with whitespace, with only whitespace dropped |
| RtStringEx.TrimRight | runtime/rt_string_ex.h:180-185 | a prefix of the text, not ending with whitespace, with only whitespace dropped |
| RtStringEx.LTrim | runtime/rt_string_ex.c:259-266 | a fresh string holding the left-trimmed characters |
| RtStringEx.RTrim | runtime/rt_string_ex.c:268-275 | the characters as the code trims them, which is the right trim unless the string is all whitespace |
| RtStringEx.RTrimAllWhitespaceKept | runtime/rt_string_ex.c:268-275 | as written, "  " comes back unchanged although its right trim is empty |
| RtStringEx.RTrimAgrees | runtime/rt_string_ex.c:277-282 | the code agrees with the right trim away from all-whitespace strings, and always on a left-trimmed string, so rt_str_trim is correct |
| RtStringEx.Trim | runtime/rt_string_ex.c:277-282 | a fresh string with whitespace gone at both ends |
| RtStringEx.NonSpace | runtime/rt_string_ex.c:284-321 | no longer than the text, and every character in it is a non-whitespace character of the text |
| RtStringEx.NonSpaceFixed | runtime/rt_string_ex.c:284-321 | removing whitespace from a string without whitespace changes nothing, so the operation is idempotent |
| RtStringEx.NonSpaceSnoc | runtime/rt_string_ex.c:311-315 | one more character adds itself when it is not whitespace and nothing otherwise |
| RtStringEx.RemoveWhitespace | runtime/rt_string_ex.c:284-321 | a fresh string holding the non-whitespace characters in order |
| RtStringEx.CountNonSpace | runtime/rt_string_ex.c:293-298 | the counting loop counts the non-whitespace characters |
| RtStringEx.CollectNonSpace | runtime/rt_string_ex.c:310-315 | the copying loop writes the non-whitespace characters in order |
| RtStringEx.IsInteger | runtime/rt_string_ex.c:415-441 | true exactly when the trimmed text is an optional sign followed by one or more digits |
| RtStringEx.ScanInteger | runtime/rt_string_ex.c:423-437 | the scan accepts exactly the integer syntax |
| RtStringEx.RepeatSpec | runtime/rt_string_ex.c:445-475 | n copies have n times the length |
| RtStringEx.RepeatSpecAt | runtime/rt_string_ex.c:467-469 | copy k lies at offset k times the length |
| RtStringEx.RepeatSpecSplit | runtime/rt_string_ex.c:445-475 | a + b copies are a copies followed by b copies |
| RtStringEx.RepeatGuardWraps | runtime/rt_string_ex.c:454 | as written, 3 bytes repeated 6148914691236517206 times pass the size check although the size exceeds SIZE_MAX |
| RtStringEx.RepeatGuard | runtime/rt_string_ex.c:454 | the corrected check refuses exactly the products that leave no room for the NUL |
| RtStringEx.DivGuard | runtime/rt_string_ex.c:454 | comparing count with m / len is the same as comparing len * count with m, without overflow |
| RtStringEx.Repeat | runtime/rt_string_ex.c:445-475 | empty for an empty string or a count of 0 or less; empty with RT_ERROR_OVERFLOW and "Repeat count too large" recorded (line 455) for a result that leaves no room for the NUL; otherwise count copies with the error record untouched |
| RtStringEx.JoinLength | runtime/rt_string_ex.c:490-494 | the joined length is the parts' total plus one separator per gap |
| RtStringEx.Texts | runtime/rt_string_ex.c:477-518 | the characters of each string, in order |
| RtStringEx.SumLengths | runtime/rt_string_ex.c:490-493 | the summing loop gives the parts' total length |
| RtStringEx.JoinParts | runtime/rt_string_ex.c:502-512 | the copying loop writes a separator before every part but the first |
| RtStringEx.Join | runtime/rt_string_ex.c:477-518 | no parts give the empty string, one part a copy, more the separated concatenation in a block of exactly the computed size |
| RtStringEx.ReplaceLength | runtime/rt_string_ex.c:543 | each replacement changes the length by the replacement's length minus the target's |
| RtStringEx.ReplaceSelf | runtime/rt_string_ex.c:520-584 | replacing a target by itself gives the string back |
| RtStringEx.CountOccurrences | runtime/rt_string_ex.c:530-535 | the counting loop counts the non-overlapping occurrences from the left |
| RtStringEx.ReplaceStep | runtime/rt_string_ex.c:556-571 | one round moves the text before the match and the replacement to the output, keeping output plus remaining work equal to the goal |
| RtStringEx.BuildReplacement | runtime/rt_string_ex.c:552-577 | the building loop writes every occurrence replaced, left to right |
| RtStringEx.ReplaceNext | runtime/rt_string_ex.c:556-571 | one round advances past the match, finds the next occurrence and keeps the loop invariant |
| RtStringEx.ReplaceTail | runtime/rt_string_ex.c:573-577 | with no occurrence left, the rest is copied unchanged and the goal is reached |
| RtStringEx.Replace | runtime/rt_string_ex.c:520-584 | an empty target gives a copy; otherwise every occurrence replaced |
| RtStringEx.ReplaceFirst | runtime/rt_string_ex.c:586-634 | the first occurrence replaced; a copy for an empty target or when there is none |
| RtStringEx.ReplaceFirstOfSingle | runtime/rt_string_ex.c:586-634 | with exactly one occurrence, replacing the first is replacing all |
| RtStringNum.EmptyIntegerStored | runtime/rt_string_ex.c:374 | the refusal's message fits the error buffer and is stored whole |
| RtStringNum.Trimmed | runtime/rt_string_ex.c:370 | the trimmed text is no longer than the string |
| RtStringNum.StrToInt | runtime/rt_string_ex.c:367-383 | RT_ERROR_INVALID with "Empty string cannot be parsed as integer" at line 374 for an all-whitespace string, the number untouched; otherwise RT_ERROR_INVALID exactly when the decimal parse of the trimmed text fails, and on success the number holds the parsed value and no error is recorded |
| RtStringNum.StrToSi | runtime/rt_string_ex.c:385-413 | the same refusal at line 392; a failed parse gives RT_ERROR_INVALID; a parsed value gives RT_OK with that value exactly when its magnitude is below 10^18, because rt_int_to_si_checked as written refuses every value of three limbs, and RT_ERROR_OVERFLOW without a record otherwise |
| RtStringNum.TrimLeftPadding | runtime/rt_string_ex.c:259-266 | leading whitespace in front of a text that starts with a non-space is dropped exactly |
| RtStringNum.TrimRightPadding | runtime/rt_string_ex.c:268-275 | trailing whitespace behind a text that ends with a non-space is dropped exactly |
| RtStringNum.PaddedIntegerReadsBack | runtime/rt_string_ex.c:361-383 | the decimal text of any integer with whitespace around it trims to that text, which rt_int_from_dec parses back to the integer |
| RtStringNum.IntTextShape | runtime/rt_string_ex.c:363 | the decimal text of an integer is non-empty, starts and ends with a non-space and has no NUL |
| RtStringNum.PaddedIntegerTrimmed | runtime/rt_string_ex.c:367-383 | such a padded string's trimmed text is non-empty and parses to the integer, so rt_str_to_int reads it back |
| RuntimeStr.Text | runtime/runtime.h:12-15 | a well-formed string has exactly len characters |
| RuntimeStr.FromCStr | runtime/runtime.c:45-61 | NULL gives exactly rt_str_null; otherwise a block holding the characters up to the NUL, also for "" |
| RuntimeStr.Concat | runtime/runtime.c:63-76 | always a block of a.len + b.len characters, a's followed by b's |
| RuntimeStr.ConcatLaws | runtime/runtime.c:63-76 | concatenation is associative on the characters, and the string from "" is its unit on both sides |
| RuntimeStr.MemCmp | runtime/runtime.c:81 | memcmp's sign: 0 exactly for equal bytes, otherwise the sign of the first differing pair as unsigned bytes |
| RuntimeStr.Eq | runtime/runtime.c:78-82 | 1 for different lengths; 0 exactly for equal characters; memcmp's sign otherwise |
| RuntimeStr.EqSwapped | runtime/runtime.c:78-82 | swapping the operands negates the result for equal lengths and keeps 1 for different ones |
| RuntimeStr.MemCmpSwapped | runtime/runtime.c:81 | swapping memcmp's operands negates its sign |
| RuntimeStr.ConcatEqFromCStr | runtime/runtime.c:45-82 | a concatenation compares equal to the string made from the joined NUL-free text |
| RuntimeStr.Free | runtime/runtime.c:91-96 | nothing for NULL; otherwise the pointee becomes the empty rt_str_null |
| RuntimeStr.Len | runtime/runtime.c:98-114 | the number holds 0 for a NULL string and its length otherwise, including lengths above LLONG_MAX read back from their decimal text |
| RuntimeStr.LengthText | runtime/runtime.c:106-111 | the decimal text of a length parses back to that length |
| RuntimeInt.IsZero | runtime/runtime.c:555-557 | for a valid number, true exactly when its value is 0 |
| RuntimeInt.Truthy | runtime/runtime.c:559-561 | 1 exactly for a nonzero value and 0 exactly for zero |
| RuntimeInt.RtInt.constructor | runtime/runtime.c:123-128 | a valid zero with no sign, no limbs and no block |
| RuntimeInt.RtInt.Clear | runtime/runtime.c:130-137 | the block freed and every field zero, a valid zero |
| RuntimeInt.RtInt.Reserve | runtime/runtime.c:139-147 | sign and length kept; the block unchanged when it suffices, otherwise the capacity (1 for 0) doubled until it covers the request, with the old limbs kept |
| RuntimeInt.RtInt.Normalize | runtime/runtime.c:149-156 | top zero limbs dropped and only zeros dropped, the top limb left nonzero, sign 0 exactly when no limb is left, and the same magnitude |
| RuntimeInt.RtInt.SetZero | runtime/runtime.c:158-161 | sign and length 0 with the block kept: a valid zero |
| RuntimeInt.RtInt.CopyFrom | runtime/runtime.c:163-173 | zero for a source without limbs, otherwise the source's sign and limbs in a block reserved to their count; a valid source gives the same value |
| RuntimeInt.RtInt.Copy | runtime/runtime.c:163-173 | nothing changes when the source is the destination; otherwise the destination holds the source's sign and limbs, or zero |
| RuntimeInt.RtInt.SetSi | runtime/runtime.c:175-195 | the canonical representation of any 64-bit value, INT64_MIN included |
| RuntimeInt.RtInt.StoreMagnitude | runtime/runtime.c:189-194 | the digit loop leaves normalized limbs spelling the magnitude |
| RuntimeInt.RtInt.WriteLimbs | runtime/runtime.c:191-194 | the loop writes normalized limbs spelling the magnitude, within the block |
| RuntimeInt.LimbRoom | runtime/runtime.c:188-194 | a 64-bit magnitude needs fewer than three limbs, so the three reserved suffice |
| RuntimeInt.RtInt.MulSmall | runtime/runtime.c:201-213 | unchanged for a number with no sign; otherwise the magnitude times m, at most one limb longer, sign kept |
| RuntimeInt.RtInt.AppendLimb | runtime/runtime.c:209-212 | the carry stored as one more limb after the old ones, in a block reserved for it |
| RuntimeInt.RtInt.AddSmall | runtime/runtime.c:215-237 | a number with no sign becomes a (or zero for 0); otherwise a is added to the magnitude with the sign kept and at most one more limb |
| RuntimeInt.RtInt.AddCarry | runtime/runtime.c:225-236 | the carry loop adds a to the magnitude, sign kept, at most one more limb |
| RuntimeInt.RtInt.FromDec | runtime/runtime.c:240-270 | 0 exactly when the text has the accepted syntax, and then the number holds its value; 1 otherwise; NULL or a blank text leaves the number untouched |
| RuntimeInt.RtInt.ReadDigits | runtime/runtime.c:260-265 | the loop reads the digit run from its start and succeeds exactly when the run ends at the end or at whitespace |
| RuntimeInt.RtInt.ScanDec | runtime/runtime.c:243-253 | the skipping loops stop where the digits start and report a '-' sign |
| RuntimeInt.RtInt.FromDecOrRaise | runtime/runtime.c:272-281 | no exception exactly when the text parses, with its value; ValueError quoting '' for NULL and ValueError otherwise |
| RuntimeInt.SkipSpaces | runtime/runtime.c:243 | the first position from i on that is not whitespace |
| RuntimeInt.DecStart | runtime/runtime.c:243-253 | where the digits start lies within the text |
| RuntimeInt.DecSign | runtime/runtime.c:245-251 | the sign read is +1 or -1 |
| RuntimeInt.DecValueRoundTrip | runtime/runtime.c:240-270 | the decimal text of any integer parses back to it |
| RuntimeInt.DecValueMinusDigits | runtime/runtime.c:240-270 | a minus sign and digits parse to the negated digit value |
| RuntimeInt.DecValueDigits | runtime/runtime.c:240-270 | a run of digits parses to its value |
| RuntimeInt.DecValueDigitText | runtime/runtime.c:240-270 | an optional minus, digits, then nothing or whitespace and anything, parse to the digits under the sign |
| RuntimeInt.DecValueStopsAtSpace | runtime/runtime.c:261 | whitespace after an integer's text ends it, whatever follows |
| RuntimeInt.DecValueMinusDigitsSpace | runtime/runtime.c:261 | a minus and digits followed by whitespace and anything parse to the negated digits |
| RuntimeInt.DecValueDigitsSpace | runtime/runtime.c:261 | digits followed by whitespace and anything parse to the digits |
| RuntimeInt.DecValueRejectsJunk | runtime/runtime.c:262 | any other character right after the digits makes the text invalid |
| RuntimeInt.DecValueRejectsBlank | runtime/runtime.c:255 | whitespace and at most one sign, the empty text included, are refused |
| RuntimeInt.RtInt.AddAbs | runtime/runtime.c:304-320 | normalized limbs spelling the sum of the magnitudes; sign 0 when they are empty, otherwise left as it was |
| RuntimeInt.RtInt.SumInto | runtime/runtime.c:308-314 | every limb of the block is the sum's limb at that place, and the carry out of the top is returned |
| RuntimeInt.RtInt.SubAbs | runtime/runtime.c:323-340 | for a magnitude at least the other, normalized limbs spelling their difference; sign 0 when they are empty, otherwise left as it was |
| RuntimeInt.RtInt.Add | runtime/runtime.c:342-365 | a valid number whose value is a + b |
| RuntimeInt.RtInt.Sub | runtime/runtime.c:367-372 | a valid number whose value is a - b |
| RuntimeInt.RtInt.Mul | runtime/runtime.c:374-405 | a valid number whose value is a * b |
| RuntimeInt.RtInt.Schoolbook | runtime/runtime.c:379-401 | abs(a) + abs(b) limbs spelling the product of the magnitudes, sign untouched |
| RuntimeInt.RtInt.MulInto | runtime/runtime.c:437-443 | the product copied into the destination, which becomes a valid number with value x * y |
| RuntimeInt.RtInt.MulRow | runtime/runtime.c:386-401 | one outer round adds ai times y, shifted by i limbs, to the block's value |
| RuntimeInt.RtInt.RowProducts | runtime/runtime.c:389-393 | the inner loop adds ai times y at place i, with the carry out at i + abs(y) returned below Base |
| RuntimeInt.RtInt.RowCarry | runtime/runtime.c:394-400 | the carry loop adds the carry at place k to the block's value |
| RuntimeInt.CarryLimb | runtime/runtime.c:396-398 | one carry step keeps limbs below Base and the block's value plus the carry at its place unchanged |
| RuntimeInt.CarryRoom | runtime/runtime.c:395-400 | a pending carry always has a limb of the block to go into |
| RuntimeInt.ScaleNext | runtime/runtime.c:204-208 | one step of the scaling loop keeps the limb below Base and the carry below Base |
| RuntimeInt.RtInt.Power | runtime/runtime.c:407-451 | OverflowError exactly for an exponent outside int64, NotImplementedError exactly for a negative one; otherwise a valid number holding a ** b, with 0 ** 0 == 1 |
| RuntimeInt.SquareAndMultiply | runtime/runtime.c:423-450 | the loop's result is a to the e-th power |
| RuntimeInt.PowRound | runtime/runtime.c:435-445 | one round halves the exponent and keeps result * base^k |
| RuntimeInt.PowStep | runtime/runtime.c:435-445 | the integer step: the odd bit's factor and the squared base keep result * base^k when k is halved |
| RuntimeInt.RtInt.PowMod | runtime/runtime.c:453-499 | ValueError exactly for a zero modulus; then OverflowError exactly for an exponent outside int64 and ValueError exactly for a negative one; otherwise a valid number holding Python's a ** b % mod |
| RuntimeInt.ModSquareAndMultiply | runtime/runtime.c:467-498 | the loop's result is a to the e-th power reduced by the modulus |
| RuntimeInt.PowModRound | runtime/runtime.c:483-493 | one round halves the exponent, keeps the result reduced and keeps the remainder of result * base^k |
| RuntimeInt.PowModStep | runtime/runtime.c:483-493 | on integers, reduced factors keep the remainder of result * base^k when k is halved |
| RuntimeInt.MulModInto | runtime/runtime.c:485-491 | the product of the two numbers reduced modulo m, left in the destination through the scratch number, with the two blocks kept apart |
| RuntimeInt.HalvedProduct | runtime/runtime.c:435-445 | result * base^k equals the result with the odd bit's factor times the squared base to k / 2 |
| RuntimeInt.RtInt.AbsCopy | runtime/runtime.c:563-566 | a valid copy holding abs(src) with the source's limbs |
| RuntimeInt.RtInt.NegInPlace | runtime/runtime.c:568-570 | a valid number holding the negated value, block and length kept |
| RuntimeInt.RtInt.ShiftAddLimb | runtime/runtime.c:573-588 | a valid non-negative number holding Base * abs(old value) + limb |
| RuntimeInt.RtInt.ShiftUp | runtime/runtime.c:582-586 | the limb in front of the old limbs, one longer, sign +1 |
| RuntimeInt.RtInt.PlaceBelow | runtime/runtime.c:583-584 | the first n limbs moved up one place with the limb at 0 |
| RuntimeInt.ShiftedLimbs | runtime/runtime.c:582-587 | a limb put below a positive magnitude's limbs spells Base times it plus the limb |
| RuntimeInt.RtInt.MulSmallCopy | runtime/runtime.c:591-600 | a valid number holding abs(b) times the digit |
| RuntimeInt.RtInt.BestDigit | runtime/runtime.c:627-642 | the binary search finds the quotient of the remainder by b, a digit below Base |
| RuntimeInt.SearchExit | runtime/runtime.c:631-642 | the search ends on the last digit whose multiple fits, which is the quotient |
| RuntimeInt.RtInt.SubMultiple | runtime/runtime.c:644-648 | the remainder less best times b, valid and non-negative |
| RuntimeInt.DivRound | runtime/runtime.c:623-651 | one round: Base * r + limb == best * b + r', with r' below b and best a digit |
| RuntimeInt.RtInt.LongDivision | runtime/runtime.c:623-651 | the dividend equals b times the stored quotient digits plus the remainder, which is below b |
| RuntimeInt.RtInt.QuotientBlock | runtime/runtime.c:613-616 | n zero limbs, length n and sign +1 |
| RuntimeInt.RtInt.DivideBlock | runtime/runtime.c:613-657 | valid quotient and remainder of the magnitude by b |
| RuntimeInt.RtInt.DivModAbs | runtime/runtime.c:605-657 | valid non-negative quotient and remainder of abs(a) by abs(b) |
| RuntimeInt.TruncatedDivMod | runtime/runtime.c:664-671 | abs(a) == abs(b) * q0 + r0 with 0 <= r0 < abs(b), and the divisor's magnitude as bb |
| RuntimeInt.DivModSigns | runtime/runtime.c:673-704 | the sign fix-ups give Python's floor quotient and remainder |
| RuntimeInt.SignsInt | runtime/runtime.c:673-704 | the same on integers |
| RuntimeInt.RtInt.FloorQuotient | runtime/runtime.c:676-692 | the quotient as fixed up: q0, -q0 or -(q0 + 1) |
| RuntimeInt.RtInt.FloorRemainder | runtime/runtime.c:677-704 | the remainder as fixed up: r0 or abs(b) - r0, negated for a negative divisor when nonzero |
| RuntimeInt.DivMod | runtime/runtime.c:659-708 | ZeroDivisionError exactly for a zero divisor; otherwise valid q and r equal to Python's a // b and a % b |
| RuntimeInt.RtInt.FloorDiv | runtime/runtime.c:710-717 | ZeroDivisionError exactly for a zero divisor; otherwise Python's a // b |
| RuntimeInt.RtInt.Mod | runtime/runtime.c:719-726 | ZeroDivisionError exactly for a zero divisor; otherwise Python's a % b |
| RuntimeInt.CmpAbs | runtime/runtime.c:283-293 | the sign of abs(a) - abs(b) |
| RuntimeInt.Cmp | runtime/runtime.c:295-301 | the sign of a - b |
| RuntimeInt.SignedProductValid | runtime/runtime.c:403-404 | normalized product limbs under the product of the signs are a valid number with value a * b |
| RuntimeInt.PositiveValid | runtime/runtime.h:44-49 | normalized limbs of a positive magnitude under sign +1 are a valid number with that value |
| RuntimeInt.ThreeLimbs | runtime/runtime.c:188-189 | Base^3 exceeds every 64-bit magnitude |
| RuntimeInt.QuotientDigit | runtime/runtime.c:623-651 | the dividend's suffix from limb i is the quotient digits found so far times b plus the remainder |
| RuntimeInt.DivDigitStep | runtime/runtime.c:623-651 | one more limb below extends the quotient digits by the digit found, with the new remainder |
| Limbs.ValBounds | runtime/runtime.h:44-49 | limbs below Base spell a number below Base^length |
| Limbs.ValTop | runtime/runtime.h:44-49 | normalized limbs without a zero top limb spell at least Base^(length - 1) |
| Limbs.ShorterIsSmaller | runtime/runtime.c:284-285 | normalized limbs with fewer limbs spell a smaller number, which is why rt_int_cmp_abs compares lengths first |
| Limbs.HighestLimbDecides | runtime/runtime.c:286-291 | with equal lengths, the highest differing limb decides the order |
| Limbs.SumLimbsValue | runtime/runtime.c:308-314 | the sum's limbs and the carry out of them spell the sum of the operands' low parts |
| Limbs.DiffLimbsValue | runtime/runtime.c:326-337 | the difference's limbs less the borrow out spell the difference of the low parts, and the borrow is 0 or 1 |
| Limbs.ToLimbsSpec | runtime/runtime.c:191-194 | the canonical limbs of a natural are normalized and spell it |
| Limbs.ToLimbsUnique | runtime/runtime.h:44-49 | normalized limbs are the canonical limbs of their value, so the representation is unique |
| Limbs.ValueSign | runtime/runtime.h:44-49 | a valid number's sign is its value's sign and its limbs spell its magnitude |
| Limbs.ValueOfFromInt | runtime/runtime.c:175-195 | the canonical representation of an integer is valid and has that value |
| Limbs.FromIntOfValue | runtime/runtime.h:44-49 | a valid number is the canonical representation of its value |
| Limbs.SignedProduct | runtime/runtime.c:403-404 | the product of the signs with the magnitudes' product is the product of the values |
| Limbs.CheckedInt64 | runtime/runtime.c:520-551 | success exactly when the value lies in the int64 range, INT64_MIN included, and then the value itself: the inverse of rt_int_set_si |
| RtBigint.GrownCap | runtime/rt_bigint.c:21-27 | the capacity is unchanged when it suffices, and otherwise at least the request, twice the old capacity and 4, and equal to one of them |
| RtBigint.IsZero | runtime/rt_bigint.c:262-265 | a well-formed number counts as zero exactly when its value is 0 |
| RtBigint.BigInt.constructor | runtime/rt_bigint.c:65-73 | a fresh number is zero, with no limbs and no block |
| RtBigint.BigInt.Clear | runtime/rt_bigint.c:75-83 | after clearing, the block is gone and the number is zero |
| RtBigint.BigInt.EnsureCap | runtime/rt_bigint.c:21-38 | sign and length are kept; the block is kept when it suffices and otherwise replaced by one of the grown capacity that holds the old limbs, with the new part zero-filled |
| RtBigint.BigInt.Normalize | runtime/rt_bigint.c:41-48 | zero top limbs are dropped and the sign is cleared when none is left, without changing the value or the block |
| RtBigint.BigInt.Copy | runtime/rt_bigint.c:85-96 | the destination takes the source's sign and limbs, in a block grown as the capacity rule says, so it has the source's value |
| RtBigint.BigInt.CountLimbs | runtime/rt_bigint.c:119-125 | the do-while loop counts the limbs a positive magnitude needs: Base^(n-1) <= v < Base^n |
| RtBigint.BigInt.StoreMagnitude | runtime/rt_bigint.c:130-134 | the digit loop stores the limbs of the magnitude, least significant first |
| RtBigint.BigInt.SetSi | runtime/rt_bigint.c:100-137 | every int64_t value, INT64_MIN included, is stored exactly and in canonical form |
| RtBigint.BigInt.AddMagnitudes | runtime/rt_bigint.c:284-294 | the carry loop writes the limbs of the magnitude sum, at most one limb more than the longer operand, and touches nothing above them |
| RtBigint.BigInt.SubMagnitudes | runtime/rt_bigint.c:319-332 | the borrow loop writes the limbs of the larger magnitude minus the smaller |
| RtBigint.BigInt.AddOppositeSigns | runtime/rt_bigint.c:301-337 | with opposite signs the result is the sum: the larger magnitude's sign over the difference, or zero when the magnitudes are equal |
| RtBigint.BigInt.AddAsWritten | runtime/rt_bigint.c:269-338 | the sum on the zero and opposite-sign paths and whenever the output held no more limbs than an operand; otherwise the output's old top limbs above the written ones remain and are added on, shifted up |
| RtBigint.BigInt.AddSameSignAsWritten | runtime/rt_bigint.c:279-299 | the same-sign path leaves the sum plus the sign times the stale limbs shifted above the written ones |
| RtBigint.BigInt.AddLoopAsWritten | runtime/rt_bigint.c:280-294 | the grown block and the carry loop leave the magnitude sum plus the old limbs above the written ones, shifted up |
| RtBigint.BigInt.AddOver | runtime/rt_bigint.c:284-294 | the loop over a large enough block: the length grows only when the loop writes past it, which leaves stale limbs above the sum |
| RtBigint.BigInt.Add | runtime/rt_bigint.c:269-338 | with the length update corrected, the result is always the sum of the operands |
| RtBigint.BigInt.Sub | runtime/rt_bigint.c:340-350 | subtraction through rt_int_add with the second sign flipped: the difference, except for the same stale-limb case as addition |
| RtBigint.BigInt.MulRow | runtime/rt_bigint.c:373-381 | one pass of the outer loop adds one limb times the other operand, shifted by the limb's position |
| RtBigint.BigInt.MulLimbs | runtime/rt_bigint.c:369-382 | the nested loops over zeroed limbs leave the product of the magnitudes |
| RtBigint.BigInt.Mul | runtime/rt_bigint.c:352-388 | the result is the product of the operands, zero included |
| RtBigint.BigInt.DivLimbs | runtime/rt_bigint.c:435-444 | the top-down loop leaves the quotient limbs by the one-limb divisor and a remainder below it |
| RtBigint.BigInt.DivSmall | runtime/rt_bigint.c:429-450 | the quotient side of the one-limb path: abs(a) = d * t + rem with 0 <= rem < d, and the quotient is t with the product of the signs |
| RtBigint.BigInt.SetRemainder | runtime/rt_bigint.c:452-457 | the remainder side: the remainder under the dividend's sign, and 0 when nothing is left over |
| RtBigint.BigInt.TimesTenPlus | runtime/rt_bigint.c:185-199 | one digit of the conversion multiplies the value by ten and adds the digit, growing the block when the carry leaves the top limb |
| RtBigint.BigInt.CarryLimb | runtime/rt_bigint.c:190-199 | one round of the carry loop keeps the loop's state, with a carry below 10 |
| RtBigint.BigInt.ExtendTo | runtime/rt_bigint.c:191-195 | when the carry leaves the top limb, the block grows, the new limb is zero and the length rises by one |
| RtBigint.BigInt.ScanDec | runtime/rt_bigint.c:143-171 | the scanning loops find the sign, where the digits start and how many follow |
| RtBigint.BigInt.ConvertDigits | runtime/rt_bigint.c:178-203 | the conversion gives a fresh number whose value is the sign times the digits |
| RtBigint.BigInt.FromDec | runtime/rt_bigint.c:139-204 | RT_ERROR_INVALID, recorded and with the number untouched, exactly when the parse fails; otherwise the parsed value; text that reads as zero keeps the block |
| RtBigint.DivLimbStep | runtime/rt_bigint.c:438-444 | bringing one limb down onto the remainder adds one quotient limb below those already written |
| RtBigint.StaleLayout | runtime/rt_bigint.c:285-294 | the limbs left by the same-sign loop are the written limbs followed by the old limbs above them |
| RtBigint.SignedStale | runtime/rt_bigint.c:296-297 | under the operands' common sign, those limbs are the sum plus the sign times the stale part |
| RtBigint.ToSiCheckedAsWritten | runtime/rt_bigint.c:206-237 | RT_OK exactly when the value is below 10^18 in magnitude, because more than two limbs are refused; the value is exact on success |
| RtBigint.ToSiRefusesInRange | runtime/rt_bigint.c:216-218 | 10^18 fits in int64_t yet has three limbs, so the conversion refuses it |
| RtBigint.ToSiChecked | runtime/rt_bigint.c:206-237 | as intended: RT_OK exactly for the values int64_t holds, with the value exact |
| RtBigint.CmpAbs | runtime/rt_bigint.c:51-61 | the sign of abs(a) - abs(b) |
| RtBigint.Cmp | runtime/rt_bigint.c:241-260 | -1, 0 or 1 as a is below, equal to or above b |
| RtBigint.DivMod | runtime/rt_bigint.c:406-483 | RT_ERROR_DIVZERO exactly for a zero divisor, recorded as "Division by zero" at line 411; RT_ERROR_INVALID exactly for a nonzero dividend with a multi-limb divisor, recorded as "Complex division not yet implemented" at line 481; otherwise RT_OK with Python's floor quotient and modulo and the error record untouched |
| RtBigint.OneLimbFloor | runtime/rt_bigint.c:459-474 | the q - 1 and r + b adjustment for a remainder with differing signs turns the truncated pair into Python's a // b and a % b |
| RtBigint.DivModOneLimb | runtime/rt_bigint.c:429-477 | the one-limb path leaves the truncated pair, adjusted when something is left over and the signs differ |
| RtBigint.FloorAdjust | runtime/rt_bigint.c:461-474 | q = q - 1 and r = r + b through rt_int_sub and rt_int_add with each output one of its own operands, which gives the exact values |
| RtBigint.StaleAddShown | runtime/rt_bigint.c:285-294 | adding 1 and 1 into an output that held 10^18 gives 10^18 + 2 |
| RtBigint.FloorDiv | runtime/rt_bigint.c:390-396 | the quotient half of divmod, with the same error cases and the same error records |
| RtBigint.Mod | runtime/rt_bigint.c:398-404 | the remainder half of divmod, with the same error cases and the same error records |
| RtBigint.DecSign | runtime/rt_bigint.c:146-153 | the sign read after the blanks is -1 or +1 |
| RtBigint.DigitsStart | runtime/rt_bigint.c:143-156 | the digits start within the text, past blanks, one sign and zeros |
| RtBigint.DecParseRoundTrip | runtime/rt_bigint.c:139-204 | the decimal text of any integer reads back as that integer |
| RtBigint.DecParseDigitText | runtime/rt_bigint.c:146-200 | an optional minus, digits not starting with zero and then a non-digit or nothing read as those digits under that sign |
| RtBigint.DecParseIgnoresTail | runtime/rt_bigint.c:165-171 | only the maximal run of digits is read; anything after a non-digit is ignored |
| RtBigint.DecParseZeroForms | runtime/rt_bigint.c:155-163 | blanks, at most one sign and zeros, and nothing else, read as zero |
| RtBigint.DecParseZeroThenJunk | runtime/rt_bigint.c:155-176 | a zero followed by a non-digit is refused as invalid |
| RtMath.AbsSi | runtime/rt_math.c:13-18 | the magnitude, saturated so that abs(INT64_MIN) is INT64_MAX; always a non-negative int64_t |
| RtMath.MinSi | runtime/rt_math.c:20-22 | one of the arguments, and no larger than either |
| RtMath.MaxSi | runtime/rt_math.c:24-26 | one of the arguments, and no smaller than either |
| RtMath.ProductExceeds | runtime/rt_math.c:50 | the test result > INT64_MAX / b is exactly the test that the product passes INT64_MAX, for positive factors |
| RtMath.NegativeSquareTest | runtime/rt_math.c:58 | for a negative base the squaring test fails only when the square is past INT64_MAX |
| RtMath.NegativeMultiplyTest | runtime/rt_math.c:50-51 | with a negative base the multiplication test always reports overflow, because INT64_MAX / b is not positive |
| RtMath.NegativeSquareFits | runtime/rt_math.c:58 | a negative base of -3037000499 or more squares within INT64_MAX, and the squaring test refuses it |
| RtMath.NegativeSquarePasses | runtime/rt_math.c:58-63 | a base of -3037000500 or less passes the squaring test although its square is past INT64_MAX |
| RtMath.WrapSquare | runtime/rt_math.c:63 | `b *= b` reduced into int64_t, equal to the square whenever the square fits |
| RtMath.PowSi | runtime/rt_math.c:28-68 | 0 for a negative exponent, 1 for exponent 0, the base itself for bases 0 and 1; for a base of two or more base ** exp when it fits and INT64_MAX when it does not; INT64_MAX for a negative base with an odd exponent or of -3037000499 or more; for the exponent 2 and a base of -3037000500 or less, the wrapped square, INT64_MAX when it wraps negative, or the division by a zero square (None); that trap happens only for even exponents and such bases |
| RtMath.PowSiRound | runtime/rt_math.c:46-65 | one round of the square-and-multiply loop either ends pow_si with a result meeting its contract or keeps the loop state with a smaller exponent |
| RtMath.PowSiOdd | runtime/rt_math.c:47-55 | for an odd exponent the multiplication either ends pow_si with a result meeting its contract or keeps result times b to twice the halved exponent equal to the power |
| RtMath.PowSiSquare | runtime/rt_math.c:56-64 | with exponent left, the squaring either ends pow_si with a result meeting its contract or squares b (reduced into int64_t) keeping the loop state |
| RtMath.PowSiSquareOverflowShown | runtime/rt_math.c:56-63 | as written, -6442450944 passes the squaring test with a square past INT64_MAX, and pow_si(-6442450944, 2) returns 2^62; -4294967296 squares to 0, and INT64_MAX is divided by it |
| RtMath.SquareOverflows | runtime/rt_math.c:58 | the intended squaring test refuses exactly the squares past INT64_MAX, whatever the sign of b |
| RtMath.MultiplyFits | runtime/rt_math.c:50-53 | when the multiplication test passes, the product fits int64_t |
| RtMath.PowHalfStep | runtime/rt_math.c:47-55 | after the odd step and the halving, result times b to twice the exponent left is still the power |
| RtMath.PowSquareStep | runtime/rt_math.c:56-64 | when the squaring test passes, b * b fits and keeps the power invariant |
| RtMath.PowOverflowOdd | runtime/rt_math.c:50-51 | when the multiplication test fails, the power passes INT64_MAX |
| RtMath.PowOverflowSquare | runtime/rt_math.c:58-61 | when the squaring test fails with exponent left, the power passes INT64_MAX |
| RtMath.SqrtSi | runtime/rt_math.c:70-97 | -1 for a negative argument, otherwise the r with r * r <= x < (r + 1) * (r + 1) |
| RtMath.GcdIsGreatest | runtime/rt_math.c:99-111 | the reference Gcd divides both arguments, every common divisor divides it, and it is 0 only for two zeros |
| RtMath.DividesRemainder | runtime/rt_math.c:104-108 | a common divisor of a and b divides a % b, which is why Euclid's step keeps the common divisors |
| RtMath.GcdSi | runtime/rt_math.c:99-111 | Euclid's loop returns the non-negative gcd of the saturated magnitudes |
| RtMath.GcdOfMinShown | runtime/rt_math.c:101-102 | gcd(INT64_MIN, 2) comes out 1 although 2 divides both arguments |
| RtMath.GcdExact | runtime/rt_math.c:99-111 | the gcd of the true magnitudes is a common divisor that every common divisor divides, and fits int64_t except when both arguments are 0 or INT64_MIN and one is INT64_MIN |
| RtMath.GcdBelow | runtime/rt_math.c:99-111 | a gcd is at most each nonzero argument and positive when one argument is |
| RtMath.LcmSi | runtime/rt_math.c:113-132 | 0 when either argument is 0; otherwise the least common multiple of the saturated magnitudes, or INT64_MAX when it passes INT64_MAX |
| RtMath.LcmIsCommonMultiple | runtime/rt_math.c:122-124 | the reference Lcm is a multiple of both arguments, and times their gcd it is their product |
| RtMath.IsPrimeSi | runtime/rt_math.c:414-434 | 1 exactly for the primes and 0 for everything else, numbers below 2 included |
| RtMath.OddHasNoEvenDivisor | runtime/rt_math.c:421-427 | an odd number has no even divisor, so trial division needs only the odd candidates |
| RtMath.Cofactor | runtime/rt_math.c:426-431 | a divisor above the square root has a cofactor of at least 2 and at most the root, so trial division may stop at the root |
| RtMath.Wrap64 | runtime/rt_math.c:453-457 | signed 64-bit addition wraps into int64_t: values in range are kept and those just past INT64_MAX come out negative |
| RtMath.NextPrimeSi | runtime/rt_math.c:436-462 | 2 for n <= 2; otherwise a nonzero result is the least prime above n, and odd; 0 means there is no prime between n and INT64_MAX |
| RtMath.NextPrimeRound | runtime/rt_math.c:449-458 | one candidate of the search: found exactly when it is prime; otherwise the next odd candidate, negative once `n += 2` wraps, and no prime lies between n and it |
| RtMath.AddTwo | runtime/rt_math.c:445-453 | `n += 2` on a positive int64_t is the sum while it fits and negative once it wraps |
| RtMath.NextOddCandidate | runtime/rt_math.c:449-453 | stepping from a composite odd candidate by 2 skips no prime |
| RtMath.NumDigits | runtime/rt_math.c:464-480 | 1 for NULL and for zero, otherwise the count c with 10^(c-1) <= abs(x) < 10^c |
| RtMath.PowIsPowerOfTen | runtime/rt_math.c:470 | each limb below the top one is nine decimal digits |
| RtMath.DigitsOfValue | runtime/rt_math.c:470-477 | nine digits per lower limb plus the top limb's digits count the digits of the value |
| RtMath.AbsBig | runtime/rt_math.c:136-150 | RT_OK with abs(x) |
| RtMath.MinBig | runtime/rt_math.c:152-161 | RT_OK with a copy of the smaller operand, the first one on a tie |
| RtMath.MaxBig | runtime/rt_math.c:163-172 | RT_OK with a copy of the larger operand, the first one on a tie |
| RtMath.PowBig | runtime/rt_math.c:174-229 | RT_ERROR_INVALID, recorded at line 179, exactly for a negative exponent; otherwise RT_OK with base ** exp |
| RtMath.MulThrough | runtime/rt_math.c:209-211 | multiplying into a scratch number and copying back multiplies the accumulator |
| RtMath.PowBySquaring | runtime/rt_math.c:194-226 | the square-and-multiply loop over scratch numbers leaves base ** exp |
| RtMath.PowRound | runtime/rt_math.c:207-219 | one round keeps result * b ** e and halves e |
| RtMath.SquareAndMultiply | runtime/rt_math.c:207-219 | the arithmetic of one round keeps result * b ** e |
| RtMath.FactorialLoop | runtime/rt_math.c:329-347 | the loop from 2 to n leaves n! |
| RtMath.Factorial | runtime/rt_math.c:314-349 | RT_ERROR_INVALID, recorded at line 318, exactly for a negative n; otherwise RT_OK with n! |
| RtMath.ChooseSymmetric | runtime/rt_math.c:364-367 | C(n, k) == C(n, n - k), so taking the smaller k changes nothing |
| RtMath.ChooseAbsorb | runtime/rt_math.c:381-398 | k * C(n, k) == n * C(n - 1, k - 1), so each step's division is exact |
| RtMath.ChooseFactorials | runtime/rt_math.c:381 | the reference C(n, k) is n! / (k! (n - k)!) |
| RtMath.Binomial | runtime/rt_math.c:351-410 | RT_ERROR_INVALID, recorded at line 355 or 360, for a negative n and for k outside 0..n; otherwise C(n, k), except that once the smaller of k and n - k reaches 10^9 the division through rt_int_floordiv fails with RT_ERROR_INVALID and leaves the record of runtime/rt_bigint.c line 481; the error record is untouched on success |
| RtMath.BinomialLoop | runtime/rt_math.c:382-402 | the loop leaves C(n, k), or fails exactly when k reaches the limb base, with the division's error record |
| RtMath.BinomialStep | runtime/rt_math.c:383-401 | one round turns C(n - k + i - 1, i - 1) into C(n - k + i, i), or fails exactly when i needs two limbs, with the division's error record |
| RtMath.ScaleBy | runtime/rt_math.c:384-391 | setting the multiplier, multiplying into scratch and copying back multiplies out by v |
| RtMath.DivideBy | runtime/rt_math.c:394-401 | the floor division by d succeeds exactly when d fits one limb, leaving out // d; otherwise the long-divisor error record |
| RtMath.BinomialArith | runtime/rt_math.c:387-398 | the product before the division is i * C(m, i), so the floor division gives C(m, i) |
| CInt.CDivModShape | pcc/backend/codegen_fast.py:209-218 | C's truncating `/` and `%`, as the emitted lines use them: the remainder is smaller than the divisor in magnitude and is zero or has the dividend's sign |
| CInt.PyDivModShape | runtime/runtime.c:659-708 | Python's floor pair: a == b * (a // b) + a % b, with a % b zero or of b's sign and smaller than b in magnitude |
| CInt.DivModUnique | runtime/runtime.c:701-704 | a quotient and remainder with the division identity and a remainder of the divisor's sign are unique, so any code that produces one is Python's pair |
| CInt.FloorFromTruncated | runtime/runtime.c:679-704 | from abs(a) == abs(b) * t + rem, the floor quotient is t, -t or -t - 1 and the remainder is moved by b exactly as the sign adjustment does |
| CInt.PowerHalve | runtime/runtime.c:435-445 | an odd exponent gives up one factor and the rest is the square to half the exponent, the step of square and multiply |
| CInt.PyModMul | runtime/runtime.c:484-492 | factors with the same remainders have products with the same remainder, so reducing after every product keeps the result |
| CInt.PyModPower | runtime/runtime.c:476 | bases with the same remainder have powers with the same remainder, so starting from a % mod changes nothing |
| Growth.Doubled | runtime/rt_list.c:36 | doubling from the start value ends at or above the need, and below twice the need unless no doubling was needed |
| Decimal.NatToStringShape | pcc/backend/codegen_fast.py:36 | the decimal text of a counter is nonempty, all digits, without a leading zero, and one character long exactly below 10 |
| Decimal.NatToStringRoundTrip | pcc/backend/codegen_fast.py:36 | the decimal text of a counter reads back as that counter |
| Decimal.NatToStringInjective | pcc/backend/codegen_fast.py:35-36 | distinct counters have distinct texts, so the numbered temporaries never share a name |
| Decimal.IntToStringInjective | pcc/backend/codegen_fast.py:107 | distinct integer values have distinct decimal texts, so literals of different values never coincide |
| IR.DefinedAfterGrows | pcc/frontend/parser_v2.py:379 | parsing a statement only adds to the defined names |
| IR.WellFormedBlockSnoc | pcc/frontend/parser_v2.py:234-238 | appending a statement that is well formed where a block ends keeps the block well formed, and its definitions thread through |
| IR.IfWellFormed | pcc/frontend/parser_v2.py:451-495 | an `if` is well formed from its test and its branches, and afterwards the names either branch defines are defined |
| IR.WhileWellFormed | pcc/frontend/parser_v2.py:497-519 | a `while` is well formed from its test and a body one loop deeper, and afterwards the body's names are defined |
| IR.ForWellFormed | pcc/frontend/parser_v2.py:521-574 | a range loop is well formed from its bounds and a body with its variable defined, and afterwards the body's names are defined |
| Lexer.MappedKind | pcc/frontend/lexer.py:118-131 | exactly the tokenizer kinds other than operators, error tokens and unknown codes have a direct counterpart |
| Lexer.ConvertToken | pcc/frontend/lexer.py:242-290 | a converted token keeps the tuple's text and position, and an error carries the tuple's position |
| Lexer.OpMapRoundTrip | pcc/frontend/lexer.py:134-157 | the operator table is one to one: each operator maps to a kind whose text it is |
| Lexer.ConvertOperator | pcc/frontend/lexer.py:263-273 | an operator converts exactly when the table has it, to its kind with the text unchanged; any other operator is "Unsupported operator" |
| Lexer.PowerAndMatmulUnsupported | pcc/frontend/lexer.py:272-273 | `**` and `@` are refused as unsupported operators |
| Lexer.ConvertErrorToken | pcc/frontend/lexer.py:257-260 | an error token is dropped exactly when it is all whitespace, and otherwise is "Invalid character" naming it |
| Lexer.OnlyErrorTokensSkipped | pcc/frontend/lexer.py:256-287 | only error tokens are ever dropped |
| Lexer.CommentsKept | pcc/frontend/lexer.py:125 | comments become COMMENT tokens with their text |
| Lexer.UnknownKindRejected | pcc/frontend/lexer.py:289-290 | a kind outside the table is an error naming its code |
| Lexer.KeywordExamples | pcc/frontend/lexer.py:160-164 | the keyword set covers the control words and not ordinary names such as `self`, `len` or `x` |
| Lexer.MessageShape | pcc/frontend/lexer.py:98-101 | the message starts with "Line " exactly when the line number is positive, and always ends with the error's text |
| ParserV1.ParseExpr | pcc/frontend/parser_v1.py:423-463 | a lowered expression only reads defined names and resolves every call; an undefined name is an error; int, bool and str constants become constants, True and False as 1 and 0; unary minus becomes `0 - e` |
| ParserV1.ParseUnary | pcc/frontend/parser_v1.py:433-436 | unary minus is lowered to `0 - e` |
| ParserV1.ParseBinOp | pcc/frontend/parser_v1.py:477-494 | only `+ - * // %` are accepted, kept as that operator, with both operands lowered |
| ParserV1.ParseCompare | pcc/frontend/parser_v1.py:496-517 | a chain of comparisons is refused with its message; a single comparison is lowered |
| ParserV1.ParseExprs | pcc/frontend/parser_v1.py:539 | the arguments are lowered one for one, all of them lowered |
| ParserV1.ParseCall | pcc/frontend/parser_v1.py:522-579 | a method call needs a defined receiver; `print` is refused as an expression; a plain name resolves as a builtin first, then as a constructor, then as a known function with exactly its arity |
| ParserV1.ParseBuiltinCall | pcc/frontend/parser_v1.py:552-556 | a builtin call keeps its name, with its arguments lowered |
| ParserV1.ParseConstructorCall | pcc/frontend/parser_v1.py:559-563 | a constructor call keeps the class name, with its arguments lowered |
| ParserV1.ParseMethodCall | pcc/frontend/parser_v1.py:525-540 | the receiver must be a defined name, and the call keeps receiver and method name |
| ParserV1.ParseFunctionCall | pcc/frontend/parser_v1.py:565-579 | a call of a known function with exactly its arity |
| ParserV1.ParseBuiltin | pcc/frontend/parser_v1.py:581-609 | accepted exactly when the argument count fits the builtin's arity table |
| ParserV1.CollectParams | pcc/frontend/parser_v1.py:143-148 | accepted exactly when no parameter is annotated, giving the parameter names in order |
| ParserV1.CollectFunctionSignatures | pcc/frontend/parser_v1.py:89-98 | accepted exactly when the top-level function names are distinct; then each maps to its parameter count |
| ParserV1.CollectClassSignatures | pcc/frontend/parser_v1.py:100-120 | accepted exactly when the class names are distinct and no class has bases, keywords or decorators; then the set of class names |
| ParserV1.ValidateModuleLevelStmt | pcc/frontend/parser_v1.py:122-128 | a module-level statement is refused exactly when it is an import, a try, a with or a raise |
| ParserV1.ParseRange | pcc/frontend/parser_v1.py:365-390 | only `range` with one to three positional arguments; missing start is 0 and missing step is 1; a literal step of 0 is refused |
| ParserV1.ParseAssign | pcc/frontend/parser_v1.py:259-287 | the value is lowered before the name becomes defined; an assignment to a name defines it; several targets are refused |
| ParserV1.ParseExprStmt | pcc/frontend/parser_v1.py:289-320 | an expression statement is `print` with one positional argument or a method call on a defined receiver, and defines nothing |
| ParserV1.ParsePrint | pcc/frontend/parser_v1.py:295-300 | `print` takes exactly one positional argument |
| ParserV1.ParseMethodStmt | pcc/frontend/parser_v1.py:302-318 | a method call statement needs a defined receiver |
| ParserV1.SimpleStmtWellFormed | pcc/frontend/parser_v1.py:403-421 | print, return, method calls, and break or continue inside a loop are well formed and define nothing |
| ParserV1.Parser.constructor | pcc/frontend/parser_v1.py:44-48 | the tables start empty |
| ParserV1.Parser.Parse | pcc/frontend/parser_v1.py:50-87 | a parsed module has distinct function and class names, tables holding exactly them, one IR function and class per definition, and every body well formed |
| ParserV1.Parser.ParseMainStmt | pcc/frontend/parser_v1.py:83-85 | a main-block statement is appended, lowered from what the block has defined so far |
| ParserV1.Parser.ParseFunctionDef | pcc/frontend/parser_v1.py:130-155 | no decorators, return annotations or non-positional parameters; the body is well formed from the parameters |
| ParserV1.Parser.ParseMethodDef | pcc/frontend/parser_v1.py:184-216 | as a function, but the first parameter must be `self`, which is dropped and defined in the body |
| ParserV1.Parser.ParseClassDef | pcc/frontend/parser_v1.py:157-182 | the methods are lowered; the fields are exactly the names assigned in the class body, without repeats; the class context is cleared on success |
| ParserV1.Parser.ParseBlock | pcc/frontend/parser_v1.py:152-153 | a block is lowered statement by statement, threading the defined names |
| ParserV1.Parser.ParseStmt | pcc/frontend/parser_v1.py:218-257 | a lowered statement is well formed; break and continue are accepted exactly inside a loop; a bare return returns 0; global, nonlocal, nested definitions and other kinds are refused |
| ParserV1.Parser.ParseSimpleStmt | pcc/frontend/parser_v1.py:403-421 | return, break and continue, with break and continue accepted exactly inside a loop |
| ParserV1.Parser.ParseIf | pcc/frontend/parser_v1.py:322-337 | both branches are lowered from copies of the defined names, and afterwards what either defines is defined |
| ParserV1.Parser.ParseWhile | pcc/frontend/parser_v1.py:339-352 | while-else is refused; the body is lowered one loop deeper |
| ParserV1.Parser.ParseFor | pcc/frontend/parser_v1.py:354-401 | only `for name in range(...)` without else; the body is lowered one loop deeper with the variable defined |
| ParserV2.StripUnderscores | pcc/frontend/parser_v2.py:705-710 | dropping the underscores never lengthens the literal, leaves only digits of a digits-and-underscores literal, and leaves a plain decimal literal unchanged |
| ParserV2.IntLiteralRoundTrip | pcc/frontend/parser_v2.py:705-710 | the decimal text of every natural is an integer literal and reads back as that natural |
| ParserV2.StripQuotes | pcc/frontend/parser_v2.py:718-722 | a string token quoted by the same `"` or `'` at both ends loses exactly those two quotes; any other token text is kept as it is |
| ParserV2.RangeBounds | pcc/frontend/parser_v2.py:542-554 | no argument is the IndexError `args[0]` raises; one argument is the stop with start 0 and step 1; two are start and stop with step 1; three or more give start, stop and step and ignore the rest |
| ParserV2.ParseBuiltin | pcc/frontend/parser_v2.py:804-829 | succeeds exactly when the builtin's arity rule holds for the argument count, with the builtin call over those arguments; otherwise a ParseError without a line |
| ParserV2.ComparisonOp | pcc/frontend/parser_v2.py:612-642 | a token maps to no operator or to one of the IR comparison operators |
| ParserV2.AdditiveOp | pcc/frontend/parser_v2.py:644-654 | a token maps to no operator or to one of the IR arithmetic operators |
| ParserV2.MultiplicativeOp | pcc/frontend/parser_v2.py:656-676 | a token maps to no operator or to one of the IR arithmetic operators |
| ParserV2.ParamScan | pcc/frontend/parser_v2.py:90-96 | the scan for the closing parenthesis stays inside the token list and never moves backwards |
| ParserV2.ParamScanSpec | pcc/frontend/parser_v2.py:90-96 | the scan stops at the first `)` after the `(` or at the end, and the arity is the number of NAME tokens passed |
| ParserV2.ScanSignaturesSound | pcc/frontend/parser_v2.py:77-113 | pass 1 only grows its tables, records a non-negative arity only for names that follow some `def`, and a class only for names that follow some `class` |
| ParserV2.CountParams | pcc/frontend/parser_v2.py:90-96 | the counting loop ends where the scan specification ends, with its NAME count |
| ParserV2.CollectSignatures | pcc/frontend/parser_v2.py:77-113 | the pass-1 loop over the tokens computes the signature scan from empty tables |
| ParserV2.ParseSource | pcc/frontend/parser_v2.py:849-860 | a pass-1 failure is returned as it is; a module returned is well formed against the tables pass 1 built |
| ParserV2.Parser.constructor | pcc/frontend/parser_v2.py:44-50 | the parser starts at token 0 with the given tokens and the pass-1 tables |
| ParserV2.Parser.Advance | pcc/frontend/parser_v2.py:128-134 | returns the current token and moves one on exactly when one is left; at the end the error "Unexpected end of input" without a position |
| ParserV2.Parser.Expect | pcc/frontend/parser_v2.py:136-151 | consumes and returns the current token exactly when it has the expected type, otherwise a ParseError with the cursor left |
| ParserV2.Parser.ExpectValue | pcc/frontend/parser_v2.py:136-151 | consumes and returns the current token exactly when it has the expected type and text, otherwise a ParseError with the cursor left |
| ParserV2.Parser.ParseModule | pcc/frontend/parser_v2.py:169-205 | the module's functions, classes and main statements are all well formed, the main body parsed from no defined names at loop depth 0 |
| ParserV2.Parser.ParseBlockBody | pcc/frontend/parser_v2.py:232-240 | the statements of a block are well formed in sequence, each against the names defined before it, and the returned set is what the block defines |
| ParserV2.Parser.ParseSuite | pcc/frontend/parser_v2.py:224-240 | a `: NEWLINE INDENT` suite yields a well-formed block and the names it defines |
| ParserV2.Parser.ParseFunctionDef | pcc/frontend/parser_v2.py:207-242 | the body is well formed with only the parameters defined, outside any loop, and the function carries the line of its `def` |
| ParserV2.Parser.ParseMethodDef | pcc/frontend/parser_v2.py:288-328 | the body is well formed with the parameters and `self` defined, outside any loop |
| ParserV2.Parser.SkipToLineEnd | pcc/frontend/parser_v2.py:273-274 | skips exactly the tokens before the next NEWLINE or NL and stops on it |
| ParserV2.Parser.ParseClassMember | pcc/frontend/parser_v2.py:257-280 | a line is blank exactly when it starts with NEWLINE or NL and a method exactly when it starts with `def`; a method member is well formed with `self` defined; a field member is the NAME token the line starts with, followed by `=` |
| ParserV2.Parser.ParseClassDef | pcc/frontend/parser_v2.py:244-286 | the class is `class NAME`, its body lines start one after the other from the token after the INDENT up to the DEDENT or ENDMARKER that ends it (consumed when it is a DEDENT), every method is well formed, and the fields are exactly the names heading the body's field lines, each once |
| ParserV2.Parser.ParseClassLine | pcc/frontend/parser_v2.py:258-280 | a `def` line adds one well-formed method and keeps the earlier ones; any other line keeps the methods; a field line (a NAME other than `def`, then `=`) adds its name unless it is already a field; any other line keeps the fields |
| ParserV2.Parser.ParseClassHead | pcc/frontend/parser_v2.py:246-251 | the class head is `class`, a NAME, `:`, NEWLINE and INDENT, in that order, and nothing else is consumed |
| ParserV2.Parser.ParseClassBody | pcc/frontend/parser_v2.py:257-280 | the body loop stops at the first DEDENT or ENDMARKER after consecutive body lines, keeping the methods well formed and the fields equal to the names heading the field lines, each once |
| ParserV2.Parser.ParseClassStep | pcc/frontend/parser_v2.py:257-280 | one body line parsed and its start recorded keeps the loop's facts: lines in order, none at a DEDENT or ENDMARKER, fields equal to the names heading the recorded field lines |
| ParserV2.Parser.DeclaresFieldSnoc | pcc/frontend/parser_v2.py:268-275 | a name heads a field line among the recorded starts plus one more exactly when it heads one of the earlier ones or the new one |
| ParserV2.Parser.FieldsSnoc | pcc/frontend/parser_v2.py:268-275 | adding a field line's name unless already present keeps the fields equal to the names heading the recorded field lines |
| ParserV2.Parser.LinesFromSnoc | pcc/frontend/parser_v2.py:257-280 | recording the start of a line that ends later keeps the starts in increasing order from the first line |
| ParserV2.Parser.ParseStmt | pcc/frontend/parser_v2.py:330-360 | a statement is well formed against the defined names and loop depth, and the returned set is what it defines; `pass` is `print(0)` |
| ParserV2.Parser.ParseAssignmentOrExpr | pcc/frontend/parser_v2.py:362-384 | `name =` gives an assignment and `name.attr =` an attribute assignment; anything else is a method call or the no-op that a plain call becomes |
| ParserV2.Parser.ParseAssignment | pcc/frontend/parser_v2.py:367-380 | an assignment to the NAME before `=`, or an attribute assignment with `=` after `.attr` |
| ParserV2.Parser.ParseAttrAssign | pcc/frontend/parser_v2.py:376-397 | an attribute assignment whose value is well formed against the names defined so far |
| ParserV2.Parser.ParseNameAssign | pcc/frontend/parser_v2.py:378-380 | the value is parsed before the name is added, so `x = x` with `x` undefined is refused; the target becomes defined |
| ParserV2.Parser.ParseCallStmt | pcc/frontend/parser_v2.py:430-444 | a plain call statement is parsed and dropped, leaving the no-op `print(0)` |
| ParserV2.Parser.ParseMethodCallStmt | pcc/frontend/parser_v2.py:409-427 | `obj.method(...)` as a statement becomes a well-formed method-call statement |
| ParserV2.Parser.ParseExprStmt | pcc/frontend/parser_v2.py:401-449 | only `name.method(` and `name(` start an expression statement; they give a method call statement or the no-op |
| ParserV2.Parser.ParseIf | pcc/frontend/parser_v2.py:451-495 | an if statement well formed against the defined names, each branch from a copy of them, defining afterwards the union of both branches |
| ParserV2.Parser.ParseWhile | pcc/frontend/parser_v2.py:497-519 | a while statement whose body is well formed one loop deeper; what the body defines stays defined after it |
| ParserV2.Parser.ParseFor | pcc/frontend/parser_v2.py:521-574 | a for-range statement on the line of its `for`, its bounds well formed, its loop variable defined afterwards |
| ParserV2.Parser.ParseForHeader | pcc/frontend/parser_v2.py:523-540 | the header's range arguments are well formed against the names defined before the loop |
| ParserV2.Parser.ParseReturn | pcc/frontend/parser_v2.py:576-584 | a return statement whose value, if any, is well formed |
| ParserV2.Parser.ParseBreak | pcc/frontend/parser_v2.py:586-591 | `break` succeeds exactly inside a loop, as a break on its line |
| ParserV2.Parser.ParseContinue | pcc/frontend/parser_v2.py:593-598 | `continue` succeeds exactly inside a loop, as a continue on its line |
| ParserV2.Parser.ParsePrint | pcc/frontend/parser_v2.py:600-606 | a print statement whose argument is well formed |
| ParserV2.Parser.ParseArgs | pcc/frontend/parser_v2.py:776-784 | every argument between the parentheses is well formed |
| ParserV2.Parser.ParseExpr | pcc/frontend/parser_v2.py:608-610 | an expression consumes tokens and is well formed against the defined names |
| ParserV2.Parser.ParseComparison | pcc/frontend/parser_v2.py:612-642 | one comparison at most, both sides well formed |
| ParserV2.Parser.ParseAdditive | pcc/frontend/parser_v2.py:644-654 | a left-nested chain of `+` and `-` over well-formed terms |
| ParserV2.Parser.ParseMultiplicative | pcc/frontend/parser_v2.py:656-676 | a left-nested chain of `*`, `//` and `%` over well-formed factors |
| ParserV2.Parser.ParseNumber | pcc/frontend/parser_v2.py:694-710 | a number containing `.`, `e` or `E` is a float constant; any other is accepted only as an integer literal, with its value |
| ParserV2.Parser.ParseNamePrimary | pcc/frontend/parser_v2.py:725-758 | `True` is 1 and `False` is 0; a name is read only when defined; a call goes to the call parser |
| ParserV2.Parser.ParseUnary | pcc/frontend/parser_v2.py:678-685 | unary minus is lowered to `0 - e` |
| ParserV2.Parser.ParsePrimary | pcc/frontend/parser_v2.py:687-767 | numbers, strings with their quotes stripped, `True`/`False` as 1/0, names and calls, each well formed |
| ParserV2.Parser.ParseCall | pcc/frontend/parser_v2.py:772-802 | a builtin comes first, then a class constructor, then a function; a name that is none of them is refused |
| ParserV2.Parser.ParseMethodCall | pcc/frontend/parser_v2.py:831-845 | a method call on the given receiver, its arguments well formed |
| LegacyFrontend.DefinedAfterGrows | pcc/frontend.py:293-375 | a statement never removes a defined name: what is defined after it includes what was defined before |
| LegacyFrontend.DefinedAfterSeqGrows | pcc/frontend.py:298-301 | a block never removes a defined name |
| LegacyFrontend.BlockOkSnoc | pcc/frontend.py:298-301 | a statement well formed after a well-formed block extends it to a well-formed block, defining what the statement defines after the block |
| LegacyFrontend.ParseExpr | pcc/frontend.py:112-250 | a lowered expression is well formed; an undefined name is refused; unary minus becomes `0 - e` and `not` stays unary; a boolean operation over other than two values and a chained comparison are refused |
| LegacyFrontend.ParseUnary | pcc/frontend.py:118-127 | unary minus becomes `0 - e`, `not` stays a unary `not`, any other unary operator is refused |
| LegacyFrontend.ParseBinary | pcc/frontend.py:137-170 | an operator outside `+ - * ** // %` is refused, a boolean operation needs exactly two values, and what is built is well formed |
| LegacyFrontend.ParseCompare | pcc/frontend.py:172-193 | exactly one operator and one comparator, lowered to a well-formed comparison |
| LegacyFrontend.ParseCall | pcc/frontend.py:237-248 | a call to a user function succeeds exactly when its arguments lower, there are no keywords and the function is known with that arity |
| LegacyFrontend.ParseBuiltinCall | pcc/frontend.py:195-248 | `input` takes 0 or 1 arguments, `len` and `int` exactly 1, `pow` 2 or 3, any other name is a user call; keywords are refused; the call keeps its name and argument count |
| LegacyFrontend.ParseExprs | pcc/frontend.py:208 | the arguments are lowered one for one, all well formed |
| LegacyFrontend.ParseRange | pcc/frontend.py:337-364 | only a keyword-free `range(...)` with 1 to 3 arguments; start 0 and step 1 filled in as the source does; a literal step of 0 is refused |
| LegacyFrontend.ParseBlock | pcc/frontend.py:298-301 | the statements of a block are lowered one for one, each well formed against what is defined before it |
| LegacyFrontend.ParseStmt | pcc/frontend.py:262-398 | a lowered statement is well formed and the returned names are what it defines; `break`/`continue` succeed exactly inside a loop; a bare `return` is `return 0`; global, nonlocal and nested definitions are refused |
| LegacyFrontend.ParseAssign | pcc/frontend.py:269-279 | only a single NAME target in store context; the target becomes defined and the value is well formed against the names before it |
| LegacyFrontend.ParsePrint | pcc/frontend.py:281-291 | an expression statement succeeds exactly as `print(e)` with one positional argument, no keywords and a lowerable argument, and is the print of that argument |
| LegacyFrontend.ParseIf | pcc/frontend.py:293-311 | each branch parsed from a copy of the defined names; afterwards the union of both is defined; branches lowered one for one |
| LegacyFrontend.ParseWhile | pcc/frontend.py:314-325 | while-else is refused; the body is parsed one loop deeper and what it defines stays defined |
| LegacyFrontend.ParseFor | pcc/frontend.py:328-375 | for-else and a non-name target are refused; a for-range on the `for` line whose variable is the target |
| LegacyFrontend.ParseFunctionDef | pcc/frontend.py:401-420 | decorators, return annotations and anything but plain positional parameters are refused; the body is well formed from the parameters alone |
| LegacyFrontend.SignaturesUnique | pcc/frontend.py:444-451 | the name-to-arity table of pass 1 is determined by the module |
| LegacyFrontend.ParseSourceToIr | pcc/frontend.py:423-468 | a lowered module has distinct function names, one IR function per `def`, no unsupported module-level statement, and is well formed against its pass-1 table |
| CodegenC.InferExprType | pcc/codegen_c.py:25-82 | int and str constants have their types; a name is typed exactly when it is in the environment, with its type there; only `not`, `and`/`or`, comparisons and bool names are bool |
| CodegenC.PlusTyping | pcc/codegen_c.py:64-72 | `+` is int exactly for two ints and str exactly for two strs, and never bool |
| CodegenC.ArithTyping | pcc/codegen_c.py:73-80 | the other arithmetic operators type exactly two ints, as int |
| CodegenC.CompareTyping | pcc/codegen_c.py:56-63 | a comparison types exactly two ints or two strs, as bool |
| CodegenC.LogicTyping | pcc/codegen_c.py:41-55 | `not` types exactly a bool or int operand; `and`/`or` exactly two typed operands neither of which is a str |
| CodegenC.InferWeakening | pcc/codegen_c.py:25-82 | a type inferred in an environment stays the same in any environment that keeps its bindings |
| CodegenC.Merge | pcc/codegen_c.py:84-90 | two environments merge exactly when they agree on their shared names, into one keeping both and holding the union of their names |
| CodegenC.MergeCommutes | pcc/codegen_c.py:84-90 | merging is symmetric |
| CodegenC.MergeTenv | pcc/codegen_c.py:84-90 | the copy-and-update loop fails exactly on a conflicting name and otherwise returns the union of the two maps |
| CodegenC.InferSeqErrPersists | pcc/codegen_c.py:92-133 | a type error in a prefix of a block is a type error of the whole block |
| CodegenC.InferStmtTypes | pcc/codegen_c.py:92-133 | the statement loop fails exactly when block inference fails, and otherwise returns the inferred environment |
| CodegenC.InferOne | pcc/codegen_c.py:94-130 | one statement of the loop: reassigning a name at another type, a non-int return and a str condition fail; if/while/for bodies merged back |
| CodegenC.AssignedVarsAppend | pcc/codegen_c.py:158-181 | the assigned names of two blocks in sequence are the union of each block's |
| CodegenC.DefinedAfterIsAssigned | pcc/codegen_c.py:158-181 | the names the front end treats as defined after a block are the incoming ones plus those the block assigns |
| CodegenC.DefinedAfterStmtIsAssigned | pcc/codegen_c.py:160-170 | the same for one statement: a for loop defines its variable and what its body assigns |
| CodegenC.InferSeqExtends | pcc/codegen_c.py:92-133 | block inference never drops or retypes an incoming binding |
| CodegenC.InferStmtExtends | pcc/codegen_c.py:94-130 | statement inference never drops or retypes an incoming binding |
| CodegenC.InferSeqCoversAssigned | pcc/codegen_c.py:92-133 | every name a block assigns is typed after it |
| CodegenC.InferStmtCoversAssigned | pcc/codegen_c.py:94-130 | every name a statement assigns is typed after it |
| CodegenC.ForVarIsInt | pcc/codegen_c.py:119-126 | after a for loop its variable is typed int |
| CodegenC.RangeBoundsInOrder | pcc/codegen_c.py:119-121 | the range bounds are typed start, stop, step in turn: the first one whose own inference fails passes its error on (a name used before assignment, say), the first one typed other than int fails with the range message, and a typed loop has three int bounds |
| CodegenC.HasReturnAppend | pcc/codegen_c.py:936-946 | a block in two parts has a return exactly when one of the parts has |
| CodegenC.ForBodyNotSearched | pcc/codegen_c.py:936-946 | a return inside a for body is not found, while one inside a while body is |
| CodegenC.CEscapeString | pcc/codegen_c.py:135-150 | the loop escapes every character of the text in order and wraps the result in double quotes |
| CodegenC.EscapeRoundTrip | pcc/codegen_c.py:135-150 | reading the escapes back gives the original text |
| CodegenC.EscapeNeverClosesEarly | pcc/codegen_c.py:135-150 | no unescaped double quote appears inside an escaped body, so the C literal ends where it should |
| CodegenC.EscapeNoControls | pcc/codegen_c.py:135-150 | no newline, carriage return or tab survives inside an escaped body |
| CodegenC.TmpNameInjective | pcc/codegen_c.py:153-156 | temporary names of different counter values or underscore-free prefixes never collide |
| CodegenC.Emitter.constructor | pcc/codegen_c.py:152 | the temporary counter starts at 0 |
| CodegenC.Emitter.NewTmp | pcc/codegen_c.py:153-156 | the counter goes up by one and the name carries its new value |
| CodegenC.Indented | pcc/codegen_c.py:356-357 | nested lines are the same lines, four spaces in, one for one |
| CodegenC.NotEmitted | pcc/codegen_c.py:315-327 | `not` lowers exactly a bool or int operand, to a borrowed bool after the operand's lines |
| CodegenC.BoolOpEmitted | pcc/codegen_c.py:329-373 | `and`/`or` lowers exactly when the operand types and operator pass, to the borrowed flag variable with no cleanup |
| CodegenC.BinOpEmitted | pcc/codegen_c.py:420-471 | a binary operation leaves an owned temporary: for strings made by rt_str_concat and freed after; for ints initialised, computed by the operator's runtime routine, and cleared after |
| CodegenC.EmitType | pcc/codegen_c.py:182-473 | the checks lowering makes on an expression; `//` and `%` by the literal 0 are refused |
| CodegenC.EmitArithType | pcc/codegen_c.py:426-470 | arithmetic lowers str + str to str and int by int with a runtime routine to int, never at bool; `+` on any other pair of types fails with the "'+' requires both int or both str" message |
| CodegenC.EmitBoolKinds | pcc/codegen_c.py:315-418 | an expression lowers to a bool exactly when it is `not`, `and`/`or`, a comparison or a bool name |
| CodegenC.LoweringRefinesInference | pcc/codegen_c.py:25-82 | what lowers has the very type inference gives it |
| CodegenC.ForEmittable | pcc/codegen_c.py:740-826 | a range loop lowers exactly when its variable has a C name, its three bounds are int and its body lowers one loop deeper |
| CodegenC.IntConditionOnlyInferred | pcc/codegen_c.py:607-613 | an int `if` condition passes inference but is refused by lowering, which wants a bool |
| CodegenC.Emitter.EmitExpr | pcc/codegen_c.py:182-473 | lowering succeeds exactly when the expression's checks pass, at the type they give; an int literal becomes the next int temporary; a name is its C name, borrowed |
| CodegenC.Emitter.EmitLeaf | pcc/codegen_c.py:186-208 | constants and names: an int literal set by rt_int_set_si with an `LL` literal when it fits in 64 bits and from its decimal text otherwise; a string from its escaped literal; a name borrowed |
| CodegenC.Emitter.EmitCall | pcc/codegen_c.py:210-313 | a call lowers exactly when its checks pass, at the type they give |
| CodegenC.Emitter.EmitInput | pcc/codegen_c.py:211-233 | `input()` and `input(str)` lower to an owned string; anything else is refused |
| CodegenC.Emitter.EmitStrBuiltin | pcc/codegen_c.py:235-268 | `len` and `int` of one str lower to an owned int |
| CodegenC.Emitter.EmitIntCall | pcc/codegen_c.py:284-313 | a user call or `pow` with int arguments lowers to an owned int |
| CodegenC.Emitter.EmitIntArgs | pcc/codegen_c.py:288-297 | the argument loop succeeds exactly when every argument lowers as int, giving one reference per argument |
| CodegenC.Emitter.EmitUnary | pcc/codegen_c.py:315-327 | `not` lowers exactly when its checks pass, to a borrowed bool |
| CodegenC.Emitter.EmitBoolOp | pcc/codegen_c.py:329-373 | `and`/`or` lowers exactly when its checks pass, to a borrowed bool |
| CodegenC.Emitter.EmitCmpOp | pcc/codegen_c.py:375-418 | a comparison lowers exactly when its checks pass, to the sign of rt_str_eq (strings) or rt_int_cmp (ints) compared with 0 by the source operator |
| CodegenC.Emitter.EmitBinOp | pcc/codegen_c.py:420-471 | a binary operation lowers exactly when its checks pass, to an owned temporary of the binary-operation shape |
| CodegenC.Emitter.EmitBlock | pcc/codegen_c.py:477-934 | a block lowers exactly when each of its statements does, and its lines are each statement's lines in order (`BlockLines`) |
| CodegenC.Emitter.EmitStmt | pcc/codegen_c.py:477-934 | a statement lowers exactly when its checks pass, to the lines of its kind (`StmtLines`): a print is the value's lines around `rt_print_int`, `rt_print_str` or a `printf` of `True`/`False` chosen by its type; a return copies the int into `__pcc_out`, releases the value, clears every local in the order the caller passes and ends with `return;`; `break` and `continue` lower to the C statement alone |
| CodegenC.Emitter.EmitAssign | pcc/codegen_c.py:513-563 | an assignment lowers exactly when the value has the variable's type and both have C names, to the value's lines, the copy into the variable's C name by the type's copy call, and the value's release |
| CodegenC.Emitter.EmitIf | pcc/codegen_c.py:607-663 | an if lowers exactly when its test is bool and both branches lower, to the test's lines, `if (c) {`, the body's block lines four spaces in, `}`, then `else {`, the else block's lines four spaces in and `}` exactly when there is an else part, then the test's release |
| CodegenC.Emitter.EmitWhile | pcc/codegen_c.py:665-738 | a while lowers exactly when its test is bool and its body lowers one loop deeper, to `while (1) {`, the test's lines, the condition into a fresh `__cond_pcc_tmp_whilecond_N`, the test's release, `if (!c) { break; }`, the body's block lines four spaces in and `}` |
| CodegenC.Emitter.EmitFor | pcc/codegen_c.py:740-826 | a for-range lowers exactly when its bounds are int and its body lowers one loop deeper, to the range head over a fresh `pcc_tmp_rng_N`, the upward loop with the body's block lines sixteen spaces in, the turn to the downward loop with the body's block lines again sixteen spaces in, and the closing braces |
| CodegenC.BlockLinesSnoc | pcc/codegen_c.py:477-511 | a block's lines extended by one more statement's lines are the lines of the longer block |
| CodegenC.BlockLinesSingle | pcc/codegen_c.py:477-511 | a block of one statement has exactly that statement's lines |
| CodegenC.BlockLinesAppend | pcc/codegen_c.py:477-511 | the lines of two blocks one after the other are the lines of the joined block |
| CodegenC.ReturnLinesOrder | pcc/codegen_c.py:828-904 | a return's copy into `__pcc_out` comes right after the value's lines, each local is cleared on its own line, in the order the caller passes them, after the value's release, and `return;` is the last line |
| CodegenC.WhileLinesOrder | pcc/codegen_c.py:665-738 | the loop head is `while (1) {`, the condition is declared right after the test's lines, the `break` on a false condition comes before the body, whose lines follow four spaces in, and `}` closes the loop |
| CodegenC.IfLinesOrder | pcc/codegen_c.py:607-663 | the test line follows the test's lines, the body sits four spaces in between it and `}`, `else {` and the else lines, also four spaces in, follow exactly when there is an else part, and the test's release comes last |
| CodegenC.ClearLocals | pcc/codegen_c.py:884-898 | before a return, one release line per local in the given order: rt_int_clear for ints and untyped names, rt_str_free for strings; fails when a local has no C name |
| BackendCodegen.TempNameInjective | pcc/backend/codegen.py:40-52 | two temporaries have the same name exactly when they carry the same counter value |
| BackendCodegen.LabelNameInjective | pcc/backend/codegen.py:65-75 | labels drawn at different counter values differ, whatever their prefixes |
| BackendCodegen.CodegenState.constructor | pcc/backend/codegen.py:35-38 | both counters start at 0 and no temporary has a type yet |
| BackendCodegen.CodegenState.NextTemp | pcc/backend/codegen.py:40-52 | the temporary counter goes up by one, the label counter stays; the name carries the new value, was not handed out before, and is recorded with the hinted type |
| BackendCodegen.CodegenState.GetTempType | pcc/backend/codegen.py:54-63 | a recorded temporary has its recorded type; any other name is taken as `rt_int` |
| BackendCodegen.CodegenState.NextLabel | pcc/backend/codegen.py:65-75 | the label counter goes up by one and the label carries its new value; temporaries are untouched |
| BackendCodegen.IntRoutine | pcc/backend/codegen.py:189-200 | an int operator has a runtime routine exactly when it is one of `+ - * // %` |
| BackendCodegen.CmpCodeDecides | pcc/backend/codegen.py:203-217 | comparing the sign of rt_int_cmp with 0 by the source operator decides that operator on the two values |
| BackendCodegen.EscapeRoundTrip | pcc/backend/codegen.py:149 | the string-literal escape reads back as the text and never ends the C literal early |
| BackendCodegen.EscapeAgreesWithLegacy | pcc/backend/codegen.py:149 | without a carriage return in the text the escape is the one of the legacy code generator |
| BackendCodegen.CarriageReturnDiffers | pcc/backend/codegen.py:149 | a carriage return is left raw here, while the legacy generator writes `\r` |
| BackendCodegen.ArgList | pcc/backend/codegen.py:228-229 | the intended argument list is `", ".join` of the leading argument and the rest, with no separator after the last |
| BackendCodegen.ArgListDangles | pcc/backend/codegen.py:228-229 | joining no arguments after the leading ones leaves a dangling `, `; with arguments the join is the intended one |
| BackendCodegen.EmitExpr | pcc/backend/codegen.py:116-270 | an int literal gets the next temporary, declared and loaded; a string literal the next temporary from its escaped text; an int name is passed by address and a string name as it is; a field read only on an object name; an int operation only by a known operator; builtins, floats, lists, dicts and subscripts are refused |
| BackendCodegen.EmitAtom | pcc/backend/codegen.py:135-157 | constants, names and field reads, as in EmitExpr |
| BackendCodegen.EmitOperands | pcc/backend/codegen.py:160-161 | the two operands only add fresh temporaries to the variable types |
| BackendCodegen.EmitBinOp | pcc/backend/codegen.py:159-201 | a non-string operation succeeds only with one of the five int operators |
| BackendCodegen.EmitCmpOp | pcc/backend/codegen.py:203-217 | a comparison only adds fresh temporaries and draws no label |
| BackendCodegen.EmitCall | pcc/backend/codegen.py:219-253 | a function or method call only adds fresh temporaries and draws no label |
| BackendCodegen.EmitArgs | pcc/backend/codegen.py:221-223 | one lowered text per argument, in order |
| BackendCodegen.ExcEnum | pcc/backend/codegen.py:411-420 | a known exception name maps to `RT_EXC_` followed by it; any other name, or none, to `RT_EXC_Exception` |
| BackendCodegen.RaiseQuoteClosesEarly | pcc/backend/codegen.py:625 | as written, a `"` in a raise message becomes `\\"`, which ends the C literal early |
| BackendCodegen.RaiseEscapeRoundTrip | pcc/backend/codegen.py:625 | the intended escape reads back as the message and never ends the C literal early |
| BackendCodegen.EmitBlock | pcc/backend/codegen.py:384-640 | a block lowers its statements in order; a `break` or `continue` without its label fails; with the label the block jumps to it; the declared names grow by the block's assignments |
| BackendCodegen.BindsSeqSnoc | pcc/backend/codegen.py:421-423 | the names a block binds grow statement by statement |
| BackendCodegen.EmitBlockStep | pcc/backend/codegen.py:421-423 | lowering one more statement of a block keeps the counters, the declared names and the placed jumps of the statements so far, extended by that statement |
| BackendCodegen.JumpsPlacedSnoc | pcc/backend/codegen.py:421-423 | the jumps placed by a block's first statements stay placed when the next statement's lines are appended |
| BackendCodegen.DeclaresSnoc | pcc/backend/codegen.py:421-459 | the names a block declares grow by each assignment target |
| BackendCodegen.EmitStmt | pcc/backend/codegen.py:421-640 | a statement updates the state as its kind says; `break` and `continue` are exactly a goto to their label inside a loop and the source's error outside one |
| BackendCodegen.EmitAssign | pcc/backend/codegen.py:423-459 | the target is declared afterwards, typed as its value says, and its lines follow the assignment rules |
| BackendCodegen.AssignLines | pcc/backend/codegen.py:426-459 | reassigning an object deletes the old one first; a first object assignment declares a pointer; a first int assignment declares it; the copy is left out only for a string name value |
| BackendCodegen.EmitMethodCallStmt | pcc/backend/codegen.py:465-488 | the last line calls `pcc_method_<class>_<method>` on the receiver and the result temporary |
| BackendCodegen.ReceiverClass | pcc/backend/codegen.py:475-480 | the class of an object receiver is its type without `pcc_class_`; otherwise the receiver's own name |
| BackendCodegen.EmitPrint | pcc/backend/codegen.py:489-503 | the last line is rt_print_str exactly when the value is a string, rt_print_int otherwise |
| BackendCodegen.EmitIf | pcc/backend/codegen.py:505-521 | both branches lowered on copies of the scope; jumps inside need their labels and appear in the lines |
| BackendCodegen.EmitWhile | pcc/backend/codegen.py:523-537 | the start label, the test, the body, a goto back and the end label, with `break` going to the end and `continue` to the start |
| BackendCodegen.EmitFor | pcc/backend/codegen.py:539-585 | three labels in order; the loop variable typed int; `break` goes to the end label and `continue` to the continue label before the step |
| BackendCodegen.ForLinesShape | pcc/backend/codegen.py:565-585 | the loop text holds the start label, the continue label, the goto back and the end label in place, and every body line |
| BackendCodegen.EmitValue | pcc/backend/codegen.py:424 | a value lowered for a statement only adds fresh temporaries; a builtin call is refused |
| BackendCodegen.EmitRangeBounds | pcc/backend/codegen.py:543-563 | the loop variable, the stop and the step temporaries are declared, the two temporaries distinct |
| BackendCodegen.EmitTry | pcc/backend/codegen.py:587-620 | the scope is kept; a named handler tests rt_exc_is with its enum and re-raises otherwise; a bare handler clears the exception |
| BackendCodegen.EmitClassStruct | pcc/backend/codegen.py:643-659 | the typedef opens, one rt_int line per field in order, the struct name and a blank line close it |
| BackendCodegen.EmitClassConstructor | pcc/backend/codegen.py:662-683 | allocation, the NULL check, one rt_int_init per field in order, then the return |
| BackendCodegen.EmitClassDestructor | pcc/backend/codegen.py:686-706 | the NULL check, one rt_int_clear per field in order, then the free |
| BackendCodegen.ParamDecls | pcc/backend/codegen.py:766 | one `rt_int* pcc_p_<p>` per parameter, in order |
| BackendCodegen.ZeroParamSignatureDangles | pcc/backend/codegen.py:766-767 | as written a function with no parameters is declared `(rt_int* out, )`; the intended signature is `(rt_int* out)` |
| BackendCodegen.ReleaseLine | pcc/backend/codegen.py:742-748 | a function releases every local; main keeps objects; a release is rt_str_clear or rt_int_clear of the name |
| BackendCodegen.ReleaseLineInjective | pcc/backend/codegen.py:782-787 | a release line names exactly one local |
| BackendCodegen.ReleaseLinesDiffer | pcc/backend/codegen.py:782-787 | the release lines of two different locals differ |
| BackendCodegen.ReleaseLocals | pcc/backend/codegen.py:782-787 | the cleanup loop writes the release line of every local the scope releases exactly once, and no other line |
| BackendCodegen.ReleaseOne | pcc/backend/codegen.py:782-787 | one round of the cleanup loop releases the chosen local, if its type needs it, and keeps every other local released at most once |
| BackendCodegen.MainKeepsObjects | pcc/backend/codegen.py:872-880 | main never releases a variable holding an object |
| BackendCodegen.EmitParams | pcc/backend/codegen.py:772-776 | each parameter declared and copied from its pointer, in order, and typed int |
| BackendCodegen.EmitFunction | pcc/backend/codegen.py:755-790 | a `break`/`continue` at the top of the body is refused; the function opens with the as-written signature, copies its parameters and closes with `}` and a blank line |
| BackendCodegen.EmitMethod | pcc/backend/codegen.py:709-752 | the same for a method, opened with its `self` signature |
| BackendCodegen.SigsOfDistinct | pcc/backend/codegen.py:825-827 | with distinct names the signature table has every function with its parameter count |
| BackendCodegen.BuildSigs | pcc/backend/codegen.py:825-827 | the table loop builds that table |
| BackendCodegen.EmitPrototypes | pcc/backend/codegen.py:834-837 | one prototype per function, in order, with the as-written signature |
| BackendCodegen.EmitMethodPrototypes | pcc/backend/codegen.py:839-845 | every method of every class has its prototype |
| BackendCodegen.EmitClassPrototypes | pcc/backend/codegen.py:841-845 | the prototypes of one class are its methods' signatures with `;`, in order |
| BackendCodegen.MethodPrototypeListed | pcc/backend/codegen.py:839-845 | the prototype of each method is in the prototype text |
| BackendCodegen.EmitStructs | pcc/backend/codegen.py:829-832 | every class has its struct |
| BackendCodegen.StructListed | pcc/backend/codegen.py:829-832 | the struct of each class is in the struct text |
| BackendCodegen.EmitLifecycles | pcc/backend/codegen.py:848-851 | every class has its constructor and destructor |
| BackendCodegen.LifecycleListed | pcc/backend/codegen.py:848-851 | the constructor and destructor of each class are in the text |
| BackendCodegen.EmitFunctions | pcc/backend/codegen.py:853-855 | any function with a stray `break`/`continue` makes generation fail; otherwise every function's definition is present |
| BackendCodegen.EmitMethods | pcc/backend/codegen.py:857-860 | every method's definition is present |
| BackendCodegen.EmitClassMethods | pcc/backend/codegen.py:857-860 | every method of one class has its definition's opening line among the lines emitted for it |
| BackendCodegen.DefinesMethodsSnoc | pcc/backend/codegen.py:857-860 | appending a definition that opens with the next method's signature extends the defined methods by that one |
| BackendCodegen.EmitMain | pcc/backend/codegen.py:862-883 | a stray `break`/`continue` in main fails; main opens with `int main(void) {` and ends returning 0 |
| BackendCodegen.Generate | pcc/backend/codegen.py:808-885 | the program starts with the preamble and the declarations, holds every prototype and main, and ends with main's `return 0;` and `}`; a stray jump fails generation |
| BackendCodegen.EmitHead | pcc/backend/codegen.py:817-846 | the head is the preamble, structs and prototypes |
| BackendCodegen.HeadShape | pcc/backend/codegen.py:817-846 | the head starts with the preamble and holds every function prototype |
| BackendFast.FastState.constructor | pcc/backend/codegen_fast.py:28-31 | both counters start at 0 and no temporary has a type yet |
| BackendFast.FastState.NextTemp | pcc/backend/codegen_fast.py:33-38 | the temporary counter goes up by one, the new name _tmpN carries the new count, was not drawn before, and is recorded with its type hint; the label counter is unchanged |
| BackendFast.FastState.GetTempType | pcc/backend/codegen_fast.py:40-42 | the recorded type of a temporary, "long long" for one never drawn |
| BackendFast.FastState.NextLabel | pcc/backend/codegen_fast.py:44-47 | the label counter goes up by one and the label is the prefix with the new count; temporaries are unchanged |
| BackendFast.CTypeForVar | pcc/backend/codegen_fast.py:50-52 | the declared C type of a variable, "long long" for an undeclared one |
| BackendFast.KindsExclusive | pcc/backend/codegen_fast.py:55-90 | an expression is at most one of string, list or dict, and one needing arbitrary precision is none of them |
| BackendFast.DeclaredTypeByKind | pcc/backend/codegen_fast.py:430-457 | a new variable is declared rt_str, rt_list_si, rt_dict_ssi or rt_int exactly when its value is of that kind, and long long exactly when it is none of them |
| BackendFast.MinLiteralOverflows | pcc/backend/codegen_fast.py:103-113 | INT64_MIN passes the 64-bit range test but is written as the out-of-range literal -9223372036854775808LL, which is no negated in-range constant |
| BackendFast.IntLiteralFits | pcc/backend/codegen_fast.py:103-113 | the corrected literal of every 64-bit value is built from an in-range constant, and equals the source's literal for every other value |
| BackendFast.EmittedDivModShape | pcc/backend/codegen_fast.py:204-221 | the emitted quotient and remainder satisfy a == b*q + r, with abs(r) < abs(b) and r zero or of b's sign |
| BackendFast.EmittedFloorDivIsPython | pcc/backend/codegen_fast.py:204-221 | the emitted truncate-then-correct quotient and remainder are Python's floor division and modulo for every nonzero divisor |
| BackendFast.CDivOverflow | pcc/backend/codegen_fast.py:204-221 | on 64-bit operands the C quotient leaves the range exactly for -2^63 / -1, and otherwise both emitted results stay in range |
| BackendFast.LoopValuesArePyRange | pcc/backend/codegen_fast.py:511-530 | for a body that does not assign the loop variable, a stop and a step that keep their values, and sums that stay within `long long`, the values the emitted for loop gives its variable (exit test by the step's sign, then `+= step`) are exactly Python's range for every nonzero step |
| BackendFast.BodyAssignmentShortensLoop | pcc/backend/codegen_fast.py:523-528 | as emitted, `for i in range(10): i = 20` runs its body once where Python runs it ten times, and `for i in range(10): i = 0` never ends |
| BackendFast.CounterLoopRuns | pcc/backend/codegen_fast.py:511-530 | a loop walked by a counter the body cannot assign runs its body once per value of the range |
| BackendFast.BuiltinOf | pcc/backend/codegen_fast.py:310-390 | a builtin name is unknown exactly when it is none of len, abs, str, int, min, max and pow |
| BackendFast.VarCode | pcc/backend/codegen_fast.py:151-163 | an rt_int variable is referred to by its address, every other variable by its name |
| BackendFast.ArithLines | pcc/backend/codegen_fast.py:197-223 | lines exist exactly for + - * // %; // and % start with the zero-divisor raise, then the C operator, then the correction that subtracts one from the quotient or adds the divisor to the remainder |
| BackendFast.EmitExpr | pcc/backend/codegen_fast.py:93-293 | lowering succeeds exactly for the expressions the code generator accepts; literals, strings and variables are lowered as written, and operator temporaries carry the right type; counters only grow |
| BackendFast.EmitAtom | pcc/backend/codegen_fast.py:103-163 | an in-range integer is its literal without a temporary; a wider one is an rt_int temporary parsed from its decimal text; a string is an rt_str temporary from its escaped text; a variable is its VarCode |
| BackendFast.EmitCompare | pcc/backend/codegen_fast.py:226-231 | a comparison is an int temporary, referred to as "(tmp != 0)" |
| BackendFast.EmitObjectCall | pcc/backend/codegen_fast.py:258-288 | attribute loads, method calls and constructor calls give a long long temporary declared by the second-to-last line |
| BackendFast.EmitOperands | pcc/backend/codegen_fast.py:166-167 | both operands are lowered, left first, and a literal right operand keeps its literal text |
| BackendFast.EmitBinOp | pcc/backend/codegen_fast.py:165-224 | string + string becomes an rt_str_concat temporary; everything else ends with the arithmetic lines of its operator, and a literal divisor of // or % is first stored in its own temporary that the zero guard tests |
| BackendFast.EmitArith | pcc/backend/codegen_fast.py:188-224 | an unsupported operator is refused; otherwise a fresh long long result temporary and the operator's arithmetic lines, through a divisor temporary for a literal divisor |
| BackendFast.EmitList | pcc/backend/codegen_fast.py:121-127 | a list display is a fresh rt_list_si temporary, initialised first and then appended to once per element |
| BackendFast.EmitDict | pcc/backend/codegen_fast.py:129-136 | a dict display is a fresh rt_dict_ssi temporary initialised first |
| BackendFast.EmitPair | pcc/backend/codegen_fast.py:131-135 | one key/value pair ends with an rt_dict_ssi_set on the dict temporary |
| BackendFast.EmitSubscript | pcc/backend/codegen_fast.py:138-149 | a subscript is a long long temporary loaded by rt_list_si_get or rt_dict_ssi_get according to the target's declared type |
| BackendFast.EmitArgs | pcc/backend/codegen_fast.py:304-308 | one code per argument, in order, variables as their VarCode |
| BackendFast.EmitCallArg | pcc/backend/codegen_fast.py:237-250 | an integer literal argument is stored in a long long temporary written with its source literal and passed by address; a variable is passed by address |
| BackendFast.EmitCallArgs | pcc/backend/codegen_fast.py:235-250 | one address per argument, in order |
| BackendFast.EmitCall | pcc/backend/codegen_fast.py:233-256 | a call is a long long result temporary passed first to pcc_fn_<name>, followed by the source's comma-joined argument list |
| BackendFast.FoldLines | pcc/backend/codegen_fast.py:340-346 | one accumulating line per further argument, in order |
| BackendFast.MinMaxLines | pcc/backend/codegen_fast.py:332-365 | two arguments give one direct call; more give a first assignment and then one accumulating call per further argument |
| BackendFast.FoldMinIsMinimum | pcc/backend/codegen_fast.py:332-348 | the accumulated min is at most the start and every argument, and is one of them |
| BackendFast.FoldMaxIsMaximum | pcc/backend/codegen_fast.py:349-365 | the accumulated max is at least the start and every argument, and is one of them |
| BackendFast.BuiltinErrors | pcc/backend/codegen_fast.py:310-375 | pow with three arguments, min or max with one, and len of an argument that is no string, list or dict are refused with their messages |
| BackendFast.BuiltinUnknownError | pcc/backend/codegen_fast.py:390 | any other name is refused as "Unknown builtin: <name>" |
| BackendFast.BuiltinDispatch | pcc/backend/codegen_fast.py:310-375 | len calls rt_str_len, rt_list_si_len or rt_dict_ssi_len by the argument's kind; min and max fold with rt_math_min_si / rt_math_max_si; pow calls rt_math_pow_si |
| BackendFast.EmitBuiltin | pcc/backend/codegen_fast.py:296-390 | a builtin call succeeds exactly when accepted, fails with its builtin's message otherwise, and ends in that builtin's lines on a temporary of its result type |
| BackendFast.EmitBlock | pcc/backend/codegen_fast.py:393-605 | statements are lowered in order; new variables are only added; every break or continue inside reaches a goto to the enclosing loop's label |
| BackendFast.EmitStmt | pcc/backend/codegen_fast.py:393-605 | break and continue outside a loop are refused with the source's messages, and otherwise become a goto to the loop's end or continue label; an attribute assignment is unsupported |
| BackendFast.EmitSimpleStmt | pcc/backend/codegen_fast.py:561-585 | raise, return, break and continue declare no variables; return succeeds exactly when its value lowers |
| BackendFast.AssignLines | pcc/backend/codegen_fast.py:419-457 | a declared rt_int variable is set by rt_int_assign and any other by `=`; a new one is declared with its kind's type, an rt_int with a separate init line |
| BackendFast.EmitAssign | pcc/backend/codegen_fast.py:416-458 | an assignment succeeds exactly when its value lowers, records the new variable's type, and ends with AssignLines |
| BackendFast.PrintCall | pcc/backend/codegen_fast.py:463-476 | strings print with rt_print_str, rt_int values and wide literals with rt_print_int, and the rest with printf |
| BackendFast.EmitPrint | pcc/backend/codegen_fast.py:460-477 | print succeeds exactly when its value lowers and ends with PrintCall's function |
| BackendFast.EmitMethodCallStmt | pcc/backend/codegen_fast.py:587-603 | append on a list variable needs exactly one argument and becomes rt_list_si_append; any other method call becomes pcc_method_<obj>_<method> |
| BackendFast.EmitIf | pcc/backend/codegen_fast.py:479-489 | the branch ends with a closing brace, has an else line exactly for a non-empty else block, and passes break and continue on to the enclosing loop |
| BackendFast.EmitWhile | pcc/backend/codegen_fast.py:491-501 | the loop opens with its while_start label and closes with a goto back to it and its while_end label, and a break in the body jumps to the end |
| BackendFast.EmitFor | pcc/backend/codegen_fast.py:503-530 | the loop variable is declared long long; the lines have the range loop's shape with for_start, for_end and for_continue labels, and break and continue in the body jump to the end and continue labels |
| BackendFast.ForTypes | pcc/backend/codegen_fast.py:505-506 | the body sees the loop variable declared long long, and variables are only added |
| BackendFast.ForLines | pcc/backend/codegen_fast.py:509-530 | the assembled loop has the range loop's shape and contains all of the body's lines |
| BackendFast.EmitForBounds | pcc/backend/codegen_fast.py:505-510 | start, stop and step lower, the latter two with the loop variable declared, and a literal start is assigned to the loop variable as written |
| BackendFast.EmitTry | pcc/backend/codegen_fast.py:532-559 | a try uses a fresh context and flag, pushes the context, pops it on every path, clears a caught exception, and re-raises one that a named handler does not match |
| BackendFast.TryEffects | pcc/backend/codegen_fast.py:532-559 | variables are only added, and a break or continue in the body or handler reaches the enclosing loop |
| BackendFast.TryLines | pcc/backend/codegen_fast.py:534-559 | the assembled try has the push/if header, the pop lines, the clear or rt_exc_is/rt_reraise lines of its handler kind, and every body and handler line |

## Left out

- Build, CLI and toolchain code (`pcc/core/compiler.py`, `pcc/build_driver.py`, `pcc/cli.py`, `pcc/utils/`) is not part of this model. It consists of subprocess calls, file writes and argument parsing.
- Python's `tokenize` and `ast.parse`: the lexer's driver loop (pcc/frontend/lexer.py:173-240) and the calls in pcc/frontend/parser_v1.py:64 and pcc/frontend.py:442 are foreign code. The token tuples and the AST are inputs to the model (`Lexer.RawToken`, `PyAst`).
- Floats: the IR's `FloatConst` and `ParserV2.Parser.ParseNumber` are modelled, but the value of a float literal is not. `FloatConst` carries the literal's text, not a double. `ParserV2.FloatAccepted` stands for Python's `float()` (pcc/frontend/parser_v2.py:698-704) and refuses only hex and imaginary text, which is not the full acceptance rule. Float arithmetic and printing are not modelled, and the generators refuse floats.
- Output and input: `rt_print_int`, `rt_print_str`, `rt_int_fprint`, `rt_str_fprint`, `rt_error_print` and stdin reading (runtime/runtime.c:19-41) only write or read streams. The generators emit calls to them as text.
- `rt_str_from_si` formats with `snprintf`. It is left out; the code generators only emit calls to it.
- `rt_str_from_int` builds nothing and always returns "0" (runtime/rt_string_ex.c:325-359). It is a placeholder and no behaviour is promised for it.
- `rt_math_sqrt`, the bigint square root (runtime/rt_math.c:231-312), is left out. Its bisection updates are wrong (lines 289-297), so it has no intended behaviour to state. `rt_math_sqrt_si` is modelled (`RtMath.SqrtSi`).
- Non-local control (`setjmp`/`longjmp`) is modelled by outcome values (`RtExc.Transfer`):
  - `rt_raise`, `rt_reraise`, `rt_try_push` and `rt_try_pop` are state updates that return where control goes;
  - the `exit()` of an unhandled exception becomes an exit status and a report text;
  - `rt_try_push` is declared `int` in runtime/rt_exc.h:46 but defined `void` in runtime/rt_exc.c:13, and the model follows the definition.
- Allocation failure (a NULL return from `malloc`/`realloc` followed by `abort` or an error code) is not modelled: allocation always succeeds.
- `RT_CHECK_NULL` guards are modelled for `rt_str_init` and `rt_str_append_cstr` (`RtString.CheckNull`), with the record they leave; the `rt_error_print` call the guard makes is output and is not modelled. Elsewhere passing an object stands for a non-NULL pointer; the list and dict wrappers take an optional object for the explicit NULL checks they make.
- Characters stand for bytes. The model does not restrict character codes to 0-255, and no UTF-8 encoding is modelled.
- `RtStringEx.SignedChar`: `rt_str_compare_ignore_case` compares plain `char` values. The model assumes `char` is signed, as on the common x86 and ARM Linux ABIs, so bytes from 128 up compare as negative.
- `RtStringEx.Compare` and `RuntimeStr.MemCmp`: `memcmp` is modelled by its sign (-1, 0 or 1), not its magnitude. The callers test only the sign.
- `RtExc.ExcName`: the `default` branch of the switch (runtime/rt_exc.c:80-81) maps values outside the enum to "Exception". The model's exception type holds only the enum's members, so that branch cannot arise.
- `RtExc.ExcState.Is` has no contract of its own: it is the single comparison of rt_exc_is, and the try lowering lemmas use it as a reference definition.
- `RtBigint.DivMod`: a divisor of more than one limb returns RT_ERROR_INVALID, as the unfinished code does (runtime/rt_bigint.c:480-482). No quotient is promised for that case.
- `RtMath.PowSi`: for a negative base the source's overflow checks compare against a negative quotient. The multiplication test always refuses, and the squaring test refuses exactly the squares that fit. The model follows the code: INT64_MAX for an odd exponent or a base of -3037000499 or more. For an even exponent and a base of -3037000500 or less, `b *= b` (runtime/rt_math.c:63) overflows `int64_t`, which C leaves undefined. The model reduces that square as the hardware does and returns None where INT64_MAX is then divided by a zero square. It states the result exactly only for the exponent 2 (`RtMath.WrappedSquareOutcome`). For larger even exponents it promises only an `int64_t` value or that trap. The contradicting test expectations (`pow_si(-2, 3) == -8`, tests/unit/test_runtime_extended.c:76), and those for `next_prime` and the replace and join lengths, are not stated as properties.
- `RtStringEx.Repeat`: the model uses the corrected guard `RtStringEx.RepeatGuard`. When the `uint64_t` product wraps (runtime/rt_string_ex.c:454), the source's guard lets the call through, allocates the wrapped size and copies past the block. That undefined behaviour is not modelled; the model refuses such counts with RT_ERROR_OVERFLOW, as intended. `RtStringEx.RepeatGuardWraps` shows the wrapped case.
- `RtStringEx.Join` and `RtStringEx.Replace`: the `size_t` sums of the result length are stated without wrap-around. The lengths they compute stay far below 2^64 for any string that fits in memory.
- `RtMath.NumDigits`: the `size_t` digit count is stated as an unbounded natural number.
- `BackendCodegen`: `_emit_builtin_call` calls `_emit_expr` without its `fn_sigs` argument (pcc/backend/codegen.py:268, 283), so Python raises a TypeError for every builtin call with an argument. `BackendCodegen.EmitExpr` refuses every `BuiltinCall` with an error result and promises no C text for it.
- `CodegenC`: `emit_c`, the assembly of the whole program, is not part of this model; `CodegenC` stops at the function and statement emitters.
- `BackendFast.LoopValuesArePyRange`: the range-loop property holds under three conditions that the model does not check. The body must not assign the loop variable. The stop and step must keep their values: pcc/backend/codegen_fast.py:518-527 re-reads their C expressions every round, so a name the body assigns changes the loop. And `v += step` must stay within `long long`: `range(9223372036854775806, 9223372036854775807, 2)` overflows after its one value. The loop additions in the model are exact.
- `BackendFast`: `_emit_function`, `_emit_class` and `generate` (pcc/backend/codegen_fast.py:608-660) are left out. The model covers its expression and statement lowering.
- `ParserV1.Parser.ParseClassDef` and `ParserV2.Parser.ParseClassDef`: the source builds the field list with `list(set(...))`, whose order depends on string hashing. The model keeps first occurrence order and proves which names are fields (for V2, the names heading the body's field lines) and that none repeats, not the order.
- `ParserV2.Parser.ParseClassDef`: the body lines are identified by the token positions where they start. The model does not restate the grammar of a method line between two starts; that a `def` line is a well-formed method is what ParseClassMember states.
- `CodegenC.ClearLocals`: the source releases the locals in `sorted(locals)` order (pcc/codegen_c.py:884). The model releases them in the order the caller passes and states that order, not the sorting.
- `BackendCodegen.ReleaseLocals`: the source releases locals in the insertion order of `var_types`, which a map does not keep. The model proves that each releasable local is released exactly once and nothing else is, not the order.
- Exact C text: whitespace and the formatting of generated lines are stated only where the contracts name lines.

## Findings

| source | as written | input that shows it | evidently intended | confidence | as-written member | corrected member |
|---|---|---|---|---|---|---|
| runtime/rt_bigint.c:293 | same-sign addition raises `out->len` only when the sum is longer, so a longer old value in `out` keeps its high limbs | `out` holding 10^18 (limbs 0, 0, 1), then `rt_int_add(out, 1, 1)` leaves 10^18 + 2 | `out->len` set to the sum's length, so `out` holds a + b | not executed | RtBigint.StaleAddShown | RtBigint.BigInt.Add |
| runtime/rt_bigint.c:216 | `rt_int_to_si_checked` refuses every value of more than two limbs | 10^18, which fits in int64_t, gives RT_ERROR_OVERFLOW | RT_OK exactly for the values that fit in int64_t | not executed | RtBigint.ToSiRefusesInRange | RtBigint.ToSiChecked |
| runtime/rt_dict.c:71 | the stored key is copied with `rt_str_from_cstr(key.data)`, which stops at the first NUL | after setting "a\0b", `get("a\0b")` raises KeyError; setting "a\0b" and then "a\0c" stores two entries under the key "a" | the key stored with its full length | not executed | RtDict.NulKeysCollide | RtDict.SetExactIsUpdate |
| runtime/rt_string_ex.c:68-73 | `rt_str_slice_to` passes `end` as a substring length, and a length of 0 means "to the end" | `slice_to("ab", 0)` is "ab" | the characters before `end`, so "" for 0 | not executed | RtStringEx.SliceToZeroKeepsAll | RtStringEx.SliceTo |
| runtime/rt_string_ex.c:268-275 | `rt_str_rtrim` of an all-whitespace string slices to 0 and so keeps it whole | `rtrim("  ")` is "  " | "" | not executed | RtStringEx.RTrimAllWhitespaceKept | RtStringEx.TrimRight |
| runtime/rt_string_ex.c:454 | the size guard of `rt_str_repeat` multiplies in `uint64_t`, which wraps | a 3-byte string repeated 6148914691236517206 times: the product wraps to 2 and passes the guard | refuse whenever the true length plus the NUL exceeds SIZE_MAX | not executed | RtStringEx.RepeatGuardWraps | RtStringEx.RepeatGuard |
| runtime/rt_math.c:99-111 | `rt_math_gcd_si` takes `rt_math_abs_si` of each argument, which turns INT64_MIN into INT64_MAX | `gcd_si(INT64_MIN, 2)` is 1 although 2 divides both | the gcd of the true magnitudes | not executed | RtMath.GcdOfMinShown | RtMath.GcdExact |
| pcc/backend/codegen.py:228-229 | call arguments follow `&tmp, ` even when there are none; a zero-parameter definition (line 766-767) gets `(rt_int* out, )`; codegen_fast.py:254-255 does the same | `f()` becomes `pcc_fn_f(&_tmp1, );`, which C rejects | no comma when nothing follows | not executed | BackendCodegen.ZeroParamSignatureDangles | BackendCodegen.ArgList |
| pcc/backend/codegen.py:625 | the raise message escape replaces `"` by `\\"` (a raw string), which is an escaped backslash followed by a bare quote; codegen_fast.py:564 does the same | `raise ValueError("a\"b")` ends the C string literal after `a\\` | `"` becomes `\"` | not executed | BackendCodegen.RaiseQuoteClosesEarly | BackendCodegen.RaiseEscapeRoundTrip |
| pcc/backend/codegen_fast.py:107 | an in-range integer literal is written `<value>LL`, and for -2^63 that is the negation of 9223372036854775808LL, which no `long long` holds; pcc/codegen_c.py:192-193 and pcc/backend/codegen.py:140-141 write the same `-9223372036854775808LL` for that constant, and the model keeps it as written there (`CodegenC.Emitter.EmitExpr`, `BackendCodegen.EmitExpr`) | an IR `IntConst(-9223372036854775808)` built directly, as IR-level code does; no source text reaches it, since every front end lowers `-9223372036854775808` to `0 - 9223372036854775808` (pcc/frontend/parser_v2.py:680-683, pcc/frontend/parser_v1.py:433-436, pcc/frontend.py:119-122), whose positive operand is out of range and goes through `rt_int_from_dec` | `(-9223372036854775807LL - 1)` | not executed | BackendFast.MinLiteralOverflows | BackendFast.IntLiteralFits |
| pcc/backend/codegen.py:149 | the string literal escape handles backslash, quote, `\n` and `\t` but copies a carriage return raw; codegen_fast.py:117 does the same | `"a\rb"` puts a raw CR inside the C literal, unlike pcc/codegen_c.py, which writes `\r` | control characters escaped as in pcc/codegen_c.py | not executed | BackendCodegen.CarriageReturnDiffers | CodegenC.EscapeNoControls |
| pcc/backend/codegen_fast.py:523-528 | the range loop steps the variable itself with `+= step` after the body, so an assignment in the body moves the loop | `for i in range(10): i = 20` runs the body once, Python ten times; `i = 0` in the body never ends | the body runs once per value of the range, whatever it assigns | not executed | BackendFast.BodyAssignmentShortensLoop | BackendFast.CounterLoopRuns |
| runtime/rt_math.c:56-63 | for a negative b the squaring test `b > INT64_MAX / b` compares against a negative quotient, so it lets through exactly the squares past INT64_MAX, and `b *= b` overflows `int64_t` | `pow_si(-6442450944, 2)`: the square 9 * 2^62 wraps to 2^62, which is returned; `pow_si(-4294967296, 2)`: the square wraps to 0 and INT64_MAX is divided by it | refuse exactly the squares past INT64_MAX | not executed | RtMath.PowSiSquareOverflowShown | RtMath.SquareOverflows |
