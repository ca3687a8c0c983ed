# bbcrack in Dafny

bbcrack is the part of Balbuzard that looks for the key of a simple
obfuscation (XOR, ADD, rotations, chained XOR, and combinations of these) by
brute force. It tries every transform with every parameter on a file. It
scores each result by searching for patterns that plain data would contain,
and keeps the best ones.

This project models that search:

- the catalogue of transform classes and what each one computes;
- the parameters each class enumerates (`iter_params`);
- what each constructor accepts;
- the three tiers of classes, the `-l` level and the `-t` selection by `gen_id`;
- the two scoring stages, with their stable descending sort and their truncation to `keep` and `save`;
- harvest mode (`-m`), which reports every match longer than three bytes.

The pattern engine (the `balbuzard` module, with its literal-string and regular-expression patterns) is a
parameter of the model: `count` and `scan` are functions from the
transformed data to the per-pattern results.

Files and modules:

- `bytes.dfy`, `Bytes`: bytes as `bv8`, `rol`, and the incrementing and decrementing position keys.
- `transforms.dfy`, `Transforms`: every transform as a value. `Apply` gives what its `transform_string` returns. `Encode` gives the obfuscation it undoes.
- `transform_props.dfy`, `TransformProps`: the round trips `Apply(t, Encode(t, p)) == p` and `Encode(t, Apply(t, d)) == d`, the translation table, and the exact shape of XOR_RChainedAll.
- `transform_methods.dfy`, `TransformMethods`: the `transform_string` loops as written, each proved to compute `Apply`:
  - `Transform_char` as a class whose method fills its `trans_table` field in a 256-step loop;
  - XOR_RChainedAll updating an array in place from right to left.
- `catalog.dfy`, `Catalog`: the classes, `gen_id`, `iter_params`, the constructors, the tiers and the level.
- `selection.dfy`, `Selection`: `split(',')`, the lookup of names in tier 3, and the choice made by `-l`/`-t`.
- `ranking.dfy`, `Ranking`: `sorted(..., reverse=True)` as a stable insertion sort, and the slice `[:k]`.
- `scoring.dfy`, `Scoring`: the stage-1 and stage-2 scores and the two stage loops.
- `harvest.dfy`, `Harvest`: `multi_trans`.

Bytes are `bv8`, so `+`, `-` and `^` wrap modulo 256, as `& 0xFF` does on a Python int. The position keys `(key + i) & 0xFF` and `(key + 0xFF - i) & 0xFF` are computed on unbounded ints with a Euclidean `% 256`. That agrees with Python's `&` also when the sum is negative.

## Model

| member | source | states |
|---|---|---|
| Bytes.Rol | balbuzard/bbcrack.py:401-403 | `rol(byte, count)`: the byte rotated left by `count` bits; its properties are the two rows below |
| Bytes.IncKey | balbuzard/bbcrack.py:284 | the key at position i, `(key + i) & 0xFF`, as XOR_INC, XOR_INC_ROL and SUB_INC compute it |
| Bytes.DecKey | balbuzard/bbcrack.py:317 | the key at position i of XOR_DEC, `(key + 0xFF - i) & 0xFF` |
| Bytes.RolInverse | balbuzard/bbcrack.py:401-403 | rotating a byte left by n and then by 8 - n gives it back |
| Bytes.RolSafetyChecks | balbuzard/bbcrack.py:405-409 | rol(1,1) = 2, rol(128,1) = 1, rol(1,7) = 128, rol(1,8) = 1 |
| Transforms.CharFn | balbuzard/bbcrack.py:251-696 | the `transform_char` of each per-byte class, one case per class: the formulas at 253, 553, 582, 609, 638, 667 and 696 |
| Transforms.CharOut | balbuzard/bbcrack.py:188-200 | a per-byte transform's output: each byte replaced by its `transform_char` |
| Transforms.XorIncOut | balbuzard/bbcrack.py:278-286 | out[i] = data[i] ^ IncKey(key, i), same length; TransformProps.XorIncTwice proves it is its own inverse |
| Transforms.XorDecOut | balbuzard/bbcrack.py:311-319 | out[i] = data[i] ^ DecKey(key, i), same length; TransformProps.XorDecTwice proves it is its own inverse |
| Transforms.SubIncOut | balbuzard/bbcrack.py:384-392 | out[i] = data[i] - IncKey(key, i) modulo 256, same length; round trips in TransformProps.SubInc* |
| Transforms.XorIncRolOut | balbuzard/bbcrack.py:347-356 | out[i] = rol(data[i] ^ IncKey(key, i), bits), same length; round trips in TransformProps.XorIncRol* |
| Transforms.XorChainedOut | balbuzard/bbcrack.py:428-440 | out[0] = data[0] ^ key, out[i] = data[i] ^ key ^ data[i-1], same length; round trips in TransformProps.Chained* |
| Transforms.XorRChainedOut | balbuzard/bbcrack.py:466-480 | the last byte is data ^ key, out[i] = data[i] ^ key ^ data[i+1] otherwise, same length; round trips in TransformProps.RChained* |
| Transforms.XorRChainedAllOut | balbuzard/bbcrack.py:509-527 | the XOR_RChainedAll output, byte by byte, same length; TransformProps.RChainedAllShape proves it is what the loop computes |
| Transforms.XorDecodes | balbuzard/bbcrack.py:251-253 | the XOR byte operation undoes its inverse |
| Transforms.XorRecovers | balbuzard/bbcrack.py:251-253 | the XOR byte operation is undone by its inverse (so it loses nothing) |
| Transforms.AddDecodes | balbuzard/bbcrack.py:579-582 | ADD undoes its inverse (a subtraction modulo 256) |
| Transforms.AddRecovers | balbuzard/bbcrack.py:579-582 | ADD is undone by subtracting the key modulo 256 |
| Transforms.XorRolDecodes | balbuzard/bbcrack.py:550-553 | XOR then ROL undoes rotating back and xoring |
| Transforms.XorRolRecovers | balbuzard/bbcrack.py:550-553 | XOR then ROL is undone by rotating back and xoring |
| Transforms.AddRolDecodes | balbuzard/bbcrack.py:606-609 | ADD then ROL undoes rotating back and subtracting |
| Transforms.AddRolRecovers | balbuzard/bbcrack.py:606-609 | ADD then ROL is undone by rotating back and subtracting |
| Transforms.RolAddDecodes | balbuzard/bbcrack.py:635-638 | ROL then ADD undoes subtracting and rotating back |
| Transforms.RolAddRecovers | balbuzard/bbcrack.py:635-638 | ROL then ADD is undone by subtracting and rotating back |
| Transforms.XorAddDecodes | balbuzard/bbcrack.py:664-667 | XOR then ADD undoes subtracting and xoring |
| Transforms.XorAddRecovers | balbuzard/bbcrack.py:664-667 | XOR then ADD is undone by subtracting and xoring |
| Transforms.AddXorDecodes | balbuzard/bbcrack.py:693-696 | ADD then XOR undoes xoring and subtracting |
| Transforms.AddXorRecovers | balbuzard/bbcrack.py:693-696 | ADD then XOR is undone by xoring and subtracting |
| Transforms.CharDecodes | balbuzard/bbcrack.py:251-696 | every `transform_char` undoes its inverse byte operation |
| Transforms.CharInjective | balbuzard/bbcrack.py:251-696 | every `transform_char` is undone by its inverse, so it is one to one on bytes |
| Transforms.TableOf | balbuzard/bbcrack.py:196-199 | the translation table has 256 entries |
| Transforms.Translate | balbuzard/bbcrack.py:200 | `translate` keeps the length of the data |
| Transforms.Apply | balbuzard/bbcrack.py:133-141 | every transform's output has the length of its input |
| TransformProps.TranslateTable | balbuzard/bbcrack.py:188-200 | translating through the 256-entry table gives `transform_char` of every byte |
| TransformProps.CharApplyEncode | balbuzard/bbcrack.py:188-200 | a per-byte transform decodes its own obfuscation |
| TransformProps.CharEncodeApply | balbuzard/bbcrack.py:188-200 | a per-byte transform loses nothing: encoding its output gives the input back |
| TransformProps.XorTwice | balbuzard/bbcrack.py:251-253 | XOR with a key applied twice gives the data back |
| TransformProps.XorIncTwice | balbuzard/bbcrack.py:278-286 | XOR_INC applied twice gives the data back |
| TransformProps.XorDecTwice | balbuzard/bbcrack.py:311-319 | XOR_DEC applied twice gives the data back |
| TransformProps.SubIncApplyEncode | balbuzard/bbcrack.py:384-392 | SUB_INC undoes adding `(key + i) & 0xFF` at position i |
| TransformProps.SubIncEncodeApply | balbuzard/bbcrack.py:384-392 | adding the key at each position undoes SUB_INC |
| TransformProps.XorIncRolApplyEncode | balbuzard/bbcrack.py:347-356 | XOR_INC_ROL undoes its obfuscation |
| TransformProps.XorIncRolEncodeApply | balbuzard/bbcrack.py:347-356 | XOR_INC_ROL loses nothing |
| TransformProps.ChainedApplyEncode | balbuzard/bbcrack.py:428-440 | XOR_Chained decodes left-chained XOR (each byte xored with key and previous obfuscated byte) |
| TransformProps.ChainedEncodeApply | balbuzard/bbcrack.py:428-440 | left-chained XOR of the output of XOR_Chained gives the input back |
| TransformProps.RChainedApplyEncode | balbuzard/bbcrack.py:466-480 | XOR_RChained decodes right-chained XOR |
| TransformProps.RChainedEncodeApply | balbuzard/bbcrack.py:466-480 | right-chained XOR of the output of XOR_RChained gives the input back |
| TransformProps.RChainedAllShape | balbuzard/bbcrack.py:509-527 | last byte is data^key; for length at least 3, byte n-2 is data[n-2]^key^data[n-1]; for 1 <= i <= n-3, out[i] = data[i]^key^out[i+1]; for length at least 2, byte 0 is unchanged |
| TransformProps.RChainedAllClosedForm | balbuzard/bbcrack.py:509-527 | each inner byte is the xor of the data from it to the end, with the key only at an odd distance from the last byte |
| TransformProps.RChainedAllApplyEncode | balbuzard/bbcrack.py:509-527 | XOR_RChainedAll decodes the obfuscation `Encode` describes |
| TransformProps.RChainedAllEncodeApply | balbuzard/bbcrack.py:509-527 | XOR_RChainedAll loses nothing |
| TransformProps.ApplyEncode | balbuzard/bbcrack.py:133-141 | every transform decodes its obfuscation |
| TransformProps.EncodeApply | balbuzard/bbcrack.py:133-141 | every transform loses nothing |
| TransformProps.ApplyInjective | balbuzard/bbcrack.py:133-141 | two data that transform to the same output are equal |
| TransformMethods.CharTransform.constructor | balbuzard/bbcrack.py:175-186 | a per-byte transform starts with no table |
| TransformMethods.CharTransform.TransformString | balbuzard/bbcrack.py:188-200 | the loop leaves `trans_table` equal to the 256 images, and the output is `transform_char` of every byte |
| TransformMethods.XorIncString | balbuzard/bbcrack.py:278-286 | out[i] = data[i] ^ ((key + i) & 0xFF) |
| TransformMethods.XorDecString | balbuzard/bbcrack.py:311-319 | out[i] = data[i] ^ ((key + 0xFF - i) & 0xFF) |
| TransformMethods.SubIncString | balbuzard/bbcrack.py:384-392 | out[i] = (data[i] - ((key + i) & 0xFF)) & 0xFF |
| TransformMethods.XorIncRolString | balbuzard/bbcrack.py:347-356 | out[i] = rol(data[i] ^ ((key + i) & 0xFF), bits) |
| TransformMethods.XorChainedString | balbuzard/bbcrack.py:428-440 | empty in, empty out; out[0] = data[0]^key; out[i] = data[i]^key^data[i-1] |
| TransformMethods.XorRChainedString | balbuzard/bbcrack.py:466-480 | empty in, empty out; out[i] = data[i]^key^data[i+1]; the last byte is data^key |
| TransformMethods.XorRChainedAllString | balbuzard/bbcrack.py:509-527 | the in-place right-to-left loop computes the XOR_RChainedAll output |
| TransformMethods.TransformString | balbuzard/bbcrack.py:227-228 | every class's `transform_string` computes `Apply`; the identity returns the data |
| Catalog.GenId | balbuzard/bbcrack.py:214-705 | each class's `gen_id` |
| Catalog.Params | balbuzard/bbcrack.py:214-705 | each class's `iter_params`, as a sequence in yield order |
| Catalog.Construct | balbuzard/bbcrack.py:214-705 | each class's constructor: the transform, or the assertion or formatting error it raises |
| Catalog.Instances | balbuzard/bbcrack.py:960-962 | the transforms of one class, one per parameter, in `iter_params` order |
| Catalog.Candidates | balbuzard/bbcrack.py:958-962 | the transforms the search loops build, class by class |
| Catalog.Tier1 | balbuzard/bbcrack.py:711-718 | `transform_classes1` |
| Catalog.Tier2 | balbuzard/bbcrack.py:721-731 | `transform_classes2` |
| Catalog.Tier3 | balbuzard/bbcrack.py:734-736 | `transform_classes3` |
| Catalog.ParamsMembers | balbuzard/bbcrack.py:214-705 | each `iter_params` yields exactly: None once; 1..255 for XOR and ADD; 0..255 for INC, DEC, SUB_INC and the chained classes; the stated pairs of key and rotation 1..7 or two keys 1..255 |
| Catalog.ParamsAscending | balbuzard/bbcrack.py:214-705 | each `iter_params` yields in strictly ascending order, first pair component as the outer loop |
| Catalog.ParamCount | balbuzard/bbcrack.py:214-705 | the number of values each class's `iter_params` yields: 1, 255, 256, 255×7, 256×7, 7×255 or 255×255 |
| Catalog.ParamsCount | balbuzard/bbcrack.py:214-705 | each `iter_params` yields exactly `ParamCount` values |
| Catalog.ConstructAsserts | balbuzard/bbcrack.py:244-504 | an asserting constructor accepts exactly an int from its lower bound (1 for XOR, else 0) to 255 and fails its assert otherwise |
| Catalog.ConstructShapes | balbuzard/bbcrack.py:337-691 | a constructor without asserts fails only when the name format does not fit the parameter's shape |
| Catalog.ParamsConstruct | balbuzard/bbcrack.py:960-962 | every value `iter_params` yields is accepted by its constructor |
| Catalog.TiersNested | balbuzard/bbcrack.py:711-736 | tier 1 is a prefix of tier 2, tier 2 of tier 3, and tier 3 lists every class exactly once |
| Catalog.ClassesForLevel | balbuzard/bbcrack.py:928-933 | every level searches a prefix of tier 3 holding tier 1; a level other than 1 or 2 searches every class |
| Catalog.TierSizes | balbuzard/bbcrack.py:711-736 | the levels try 5866, 137452 and 139244 transforms |
| Selection.Split | balbuzard/bbcrack.py:938 | `split(',')` gives at least one piece |
| Selection.JoinSplit | balbuzard/bbcrack.py:938 | joining the pieces with commas gives the string back |
| Selection.SplitNoComma | balbuzard/bbcrack.py:938 | no piece holds a comma |
| Selection.SplitJoin | balbuzard/bbcrack.py:938 | splitting comma-free pieces joined with commas gives the pieces back |
| Selection.GenIdsDistinct | balbuzard/bbcrack.py:711-736 | the classes of tier 3 have pairwise different `gen_id`s |
| Selection.Lookup | balbuzard/bbcrack.py:940-942 | the inner loop: the listed classes whose `gen_id` is the name |
| Selection.Requested | balbuzard/bbcrack.py:937-942 | the outer loop: the lookups of every requested name, in request order |
| Selection.LookupMembers | balbuzard/bbcrack.py:940-942 | a class matches a name exactly when it is listed and its `gen_id` is the name |
| Selection.LookupTier3 | balbuzard/bbcrack.py:940-942 | a name selects at most one class of tier 3, and one exactly when it is a `gen_id` |
| Selection.RequestedMembers | balbuzard/bbcrack.py:937-942 | a class is selected exactly when its `gen_id` is requested |
| Selection.Known | balbuzard/bbcrack.py:939-942 | the requested names that match some class, in request order |
| Selection.RequestedInOrder | balbuzard/bbcrack.py:937-942 | one class per known name, in request order: unknown names are skipped, and a name given twice is selected twice |
| Selection.KnownAllNames | balbuzard/bbcrack.py:937-942 | when every name is a `gen_id`, every name is known, so one class is selected per name |
| Selection.RequestedEmpty | balbuzard/bbcrack.py:943-945 | nothing is selected exactly when no name is a `gen_id` |
| Selection.SelectClasses | balbuzard/bbcrack.py:937-942 | the two nested loops compute the requested classes |
| Selection.ChooseClasses | balbuzard/bbcrack.py:900-945 | `-t list` lists; no `-t` (or an empty one) searches the level's tier; otherwise the requested classes, or the error when none matched |
| Ranking.SortDesc | balbuzard/bbcrack.py:991 | `sorted(..., key=score, reverse=True)`; its properties are the rows below |
| Ranking.TopK | balbuzard/bbcrack.py:991-993 | the sort followed by `[:k]` |
| Ranking.PyTake | balbuzard/bbcrack.py:993 | `s[:k]` is a prefix of length min(k, n), or n + k clamped at 0 for a negative k |
| Ranking.SortDescSorted | balbuzard/bbcrack.py:991 | the sort's output is in descending order of score and is a permutation of the input |
| Ranking.SortDescStable | balbuzard/bbcrack.py:991 | the candidates of any one score come out in input order |
| Ranking.StableSortIsSortDesc | balbuzard/bbcrack.py:991 | any descending, order-keeping arrangement of the input is the model's sort, so it is the one Python computes |
| Ranking.TopKLength | balbuzard/bbcrack.py:991-993 | the kept list has min(keep, n) candidates |
| Ranking.TopKSorted | balbuzard/bbcrack.py:991-993 | the kept list is in descending order and a sub-multiset of the candidates |
| Ranking.TopKDominates | balbuzard/bbcrack.py:991-993 | kept and dropped make up the candidates, and no kept score is below a dropped one |
| Ranking.TopKStable | balbuzard/bbcrack.py:1023-1025 | among equal scores the kept ones are the first produced |
| Scoring.CountScore | balbuzard/bbcrack.py:965-968 | the stage-1 score, Σ count×weight |
| Scoring.ScanScore | balbuzard/bbcrack.py:1011-1016 | the stage-2 score, Σ len(match)×weight |
| Scoring.Stage1Results | balbuzard/bbcrack.py:958-982 | `results1` before the sort |
| Scoring.Stage2Results | balbuzard/bbcrack.py:1008-1020 | `results` of stage 2 before the sort |
| Scoring.CountScoreAppend | balbuzard/bbcrack.py:965-968 | the stage-1 sum adds up over any split of the pattern results |
| Scoring.CountScoreBounds | balbuzard/bbcrack.py:965-968 | non-negative for non-negative weights, and 0 when nothing occurs |
| Scoring.MatchScoreIsWeightedLength | balbuzard/bbcrack.py:1013-1016 | one pattern contributes its weight times the total length of its matches |
| Scoring.ScanScoreBounds | balbuzard/bbcrack.py:1011-1016 | non-negative for non-negative weights, and 0 when nothing matches |
| Scoring.CountLoop | balbuzard/bbcrack.py:965-968 | the loop computes Σ count×weight |
| Scoring.ScanLoop | balbuzard/bbcrack.py:1011-1016 | the two loops compute Σ len(match)×weight |
| Scoring.Stage1ResultsAt | balbuzard/bbcrack.py:958-982 | `results1` holds every candidate in enumeration order with the score of its transformed data |
| Scoring.ScoreClass | balbuzard/bbcrack.py:960-982 | the loop over one class's parameters appends their results in order |
| Scoring.Stage1 | balbuzard/bbcrack.py:954-993 | stage 1 returns the `keep` best of all candidates after the stable sort |
| Scoring.Stage2ResultsAt | balbuzard/bbcrack.py:1008-1020 | stage 2 rescores exactly stage 1's survivors, in their order, on data recomputed from the raw data |
| Scoring.Stage2 | balbuzard/bbcrack.py:1000-1025 | stage 2 returns the `save` best of the rescored survivors after the stable sort |
| Harvest.KeepMatches | balbuzard/bbcrack.py:835-838 | the records of one pattern's matches |
| Harvest.KeepScans | balbuzard/bbcrack.py:834-838 | the records of one transform's data, pattern by pattern |
| Harvest.HarvestAll | balbuzard/bbcrack.py:824-838 | the records of a list of transforms, transform by transform |
| Harvest.KeepMatchesMembers | balbuzard/bbcrack.py:835-838 | a record of one pattern is exactly one of its matches longer than 3 bytes |
| Harvest.KeepScansMembers | balbuzard/bbcrack.py:834-838 | a record of one transform is exactly a match longer than 3 bytes of some pattern in its data |
| Harvest.HarvestMembers | balbuzard/bbcrack.py:824-838 | a harvest record is exactly a record of one candidate's transformed data |
| Harvest.HarvestOnlyLong | balbuzard/bbcrack.py:836 | no match of 3 bytes or fewer is reported |
| Harvest.ReportMatches | balbuzard/bbcrack.py:834-838 | the loops over patterns and matches compute the records of one transform |
| Harvest.HarvestClass | balbuzard/bbcrack.py:826-838 | the loop over one class's parameters collects their records in order |
| Harvest.MultiTrans | balbuzard/bbcrack.py:815-838 | harvest mode reports the records of every candidate in enumeration order |

XOR_RChainedAll is modelled as its loop computes. The loop runs from the last index down to 2, so byte 0 is never changed when the data has at least two bytes. Each inner byte holds the key only when it is an odd distance from the last byte. The formula in the class's doc comment (balbuzard/bbcrack.py:496) describes something else, so it is not a contract here.

The `-l` option follows the code: any level other than 1 and 2 selects tier 3.

## Left out

- The pattern engine (`balbuzard.Balbuzard`, `Pattern`, `Pattern_re`) and the pattern tables: it is a separate module matching literal-string and regular-expression patterns. Its per-pattern counts, matches and weights are parameters.
- File and zip input, option parsing, `sys.exit`, and all printed output. This is I/O. `-t list` is modelled only as the choice to list, and harvest records are returned instead of printed.
- Writing the saved results to files and naming them with `os.path.splitext`: filesystem code.
- The profiling branch of harvest mode (`-p`): it scans with the pattern module's `scan_profiling` instead of `scan`. That module is not part of this model. The branch is taken to return what `scan` returns, and it adds the periodic timing printout in floating point.
- `best_score` and the timing of stage 1: they only drive printing.
- `name`, `shortname` and `gen_name`: display strings. The one effect of the name format that is modelled is that a parameter of the wrong shape makes construction fail.
- `Transform_XOR_INC_ROL.transform_char`: it is never called, because the class overrides `transform_string`.
- Catalog.Construct: for a class without asserts, given a key outside 0..255 or a rotation outside 0..8, it returns `OutsideModel`. The source builds such a transform. Its `transform_string` then either raises ValueError or returns bytes the model does not represent: ADD with key 300 acts as ADD 0x2C. It raises when a rotation outside 0..8 gives `rol` a negative shift (balbuzard/bbcrack.py:402), or when an ADD_XOR xor key outside 0..255 gives `chr` an argument outside range(256) (balbuzard/bbcrack.py:696). `iter_params` never yields such values.
- Python's `sorted` is a library call. It is modelled by the result it must have: `StableSortIsSortDesc` shows that the model's sort is the only stable descending arrangement. It is not modelled as Timsort.
