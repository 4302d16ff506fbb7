# Blender scripting utilities: argument, layer, selection and naming helpers

This project models the plain sequence and flag-array logic in `utils.py`, a
set of helpers for scripting Blender. Four operations are modelled:

- **`extract_args`** returns the command-line arguments that follow the first
  `"--"`, so that a script run by Blender receives its own flags. Here it is
  the pure function `Utils.ExtractArgs` on `seq<string>`, with Python's
  `list.index` modelled as `Utils.IndexOf`. The optional `input_argv=None`
  default, which falls back to `sys.argv`, becomes an explicit parameter.
  Sequences are values in Dafny, so the input list cannot be modified.
- **`set_layer`** moves an object to one layer by writing its boolean layer
  array in place. Here it is `Utils.SetLayer`, over an `array<bool>`, with
  the source's `for` loop written as a `while` loop. It writes the target
  layer first, then runs the loop. The loop invariants prove the source
  comment's claim: the object stays on at least one layer at every step.
  `Utils.AfterIterations` describes the array after the first `i` iterations.
  Two lemmas use it to show why the first write matters: with that write, every
  intermediate state keeps a layer set; without it, the loop can pass through
  a state with no layer set.
- **The selection step of `delete_object`** clears the `select` flag of every
  object and then sets the target's flag. Here it is `Utils.SelectOnly`, over
  an `array<bool>` of select flags and a target index. Afterwards exactly one
  flag is set, and it is the target's.
- **The naming block of `add_object`** counts the existing object names that
  start with `name` and names the new object `name + "_" + str(count)`. Here it
  is the method `Utils.AddObjectName`, which is proved against the
  specification functions `Utils.PrefixCount` and `Utils.NewName`. The Python
  `str.startswith` test becomes Dafny's sequence-prefix test
  (`Utils.StartsWith`). The `%d` formatting becomes `Decimal.FromNat`, whose
  inverse `Decimal.ToNat` reads the number back.

The source comment says the count gives the new object a unique name. That
is not always true, and the model does not claim it. `Utils.NewNameMayCollide`
gives a concrete case. Suppose `Cube_0` was deleted and `Cube_1` remains. The
count is then 1, so the computed new name is `Cube_1`, the name of an object
that already exists. What the rename then does is not modelled. Likewise, a
differently named object that shares the prefix also raises the count.

Module `Flags` holds the flag-vector notions that the layer and selection
operations share: `OnlyAt(n, k)` (only position `k` is set) and
`CountSet` (the number of set flags).

## Model

| member | source | states |
|---|---|---|
| `Utils.IndexOf` | utils.py:27 | the result is a position of `x` in `s`, and no earlier position holds `x` (the first occurrence, as `list.index` returns) |
| `Utils.ExtractArgs` | utils.py:17-29 | the result is always a suffix of `argv`; the result is empty when `"--"` does not occur; when it does, the token just before the result is `"--"` and no earlier token is `"--"`, so the result is exactly what follows the first `"--"` |
| `Utils.ExtractArgsForwards` | utils.py:26-28 | for `launcher` without `"--"`, extracting from `launcher + ["--"] + script` gives back `script` unchanged, including any later `"--"` tokens it contains |
| `Utils.ExtractArgsSplits` | utils.py:26-28 | when `"--"` occurs, `argv` equals the tokens before its first `"--"`, then `"--"`, then the extracted arguments |
| `Utils.AfterIterations` | utils.py:148-149 | the layer array after the first `i` passes of the loop: positions already visited hold `j == k`, the others are unchanged; before any pass it is the start state, and after all passes it is `OnlyAt(n, k)` whatever the start state |
| `Utils.SetLayer` | utils.py:143-149 | afterwards the layers are exactly `OnlyAt(n, layerIdx)` (`layers[i] == (i == layerIdx)`); the array keeps its length; loop invariants give `layers[layerIdx]` and at least one set layer after the first write and after every loop iteration |
| `Utils.PreWriteKeepsLayer` | utils.py:145-149 | once the target layer has been set first, every intermediate state of the loop has the target layer set and at least one layer set |
| `Utils.NoPreWriteLosesLayer` | utils.py:145-148 | without the first write, an object on only layer `j`, moved to a higher layer `k`, is on no layer after iteration `j` |
| `Utils.SelectOnly` | utils.py:37-41 | afterwards the target's flag is set and every other flag is clear (`OnlyAt(n, target)`), so exactly one object is selected |
| `Flags.CountSetOnlyAt` | utils.py:39-41 | a flag vector with only position `k` set has exactly one set flag |
| `Flags.CountSetOne` | utils.py:39-41 | a flag vector has exactly one set flag if and only if it is `OnlyAt(n, k)` for some `k` |
| `Flags.CountSetZero` | utils.py:145-146 | no flag is set exactly when the count of set flags is zero |
| `Utils.StartsWith` | utils.py:166 | `s` starts with `prefix` exactly when `prefix` is no longer than `s` and equals the first characters of `s` |
| `Utils.PrefixCount` | utils.py:164-167 | the count of names starting with `name` is between 0 and the number of objects |
| `Utils.AddObjectName` | utils.py:164-173 | `count` is the number of existing names that start with `name` (so it is between 0 and the number of objects), and the new name is `name`, then `"_"`, then the decimal form of `count` |
| `Utils.PrefixCountZero` | utils.py:164-167 | the count is 0 if and only if no existing name starts with `name` |
| `Utils.PrefixCountAll` | utils.py:164-167 | the count equals the number of objects if and only if every existing name starts with `name` |
| `Utils.PrefixCountAppend` | utils.py:164-167 | counting over `a + b` gives the count over `a` plus the count over `b` |
| `Utils.PrefixCountPermutation` | utils.py:164-167 | the count does not depend on the order in which the scene lists its objects |
| `Utils.NewName` | utils.py:173 | the computed name starts with `name`, is followed by `"_"`, and ends in at least one decimal digit |
| `Utils.NewNameParts` | utils.py:173 | the new name starts with `name`, has `"_"` right after it, and the rest reads back as the count |
| `Utils.NewNameDeterminesCount` | utils.py:173 | two scenes give the same new name for `name` if and only if they give the same count |
| `Utils.NewNameMayCollide` | utils.py:162-173 | the computed new name can equal an existing name: for the objects `["Cube_1"]` and the name `"Cube"`, the computed new name is `"Cube_1"` |
| `Decimal.FromNat` | utils.py:173 | the decimal form has at least one character, consists only of digits, and has no leading zero unless it is `"0"` |
| `Decimal.ToNatFromNat` | utils.py:173 | reading back the decimal form of `n` gives `n` |
| `Decimal.FromNatInjective` | utils.py:173 | different counts give different decimal forms, so different counts give different new names |

## Left out

- `intrinsic_mat`, `image2world`, `get_camera_coords` and `important_data` (utils.py:44-140) are left out. They are floating-point camera geometry over `bpy_extras` and `mathutils`, whose behaviour is not visible here.
- `parse_args` (utils.py:32-33) is left out. It only passes the result of `extract_args` to Python's `argparse`.
- `load_materials` and `add_material` (utils.py:184-246) are left out. They list directories, append `.blend` files and wire shader node graphs, all of which are host-application operations.
- Every `bpy.ops` call is left out: the delete in `delete_object`, and the append, resize and translate calls in `add_object`. So are the property assignments at utils.py:174 and 177-178: the rename, setting the active object and the rotation. Their scene-graph effects are not visible here.
- What the rename at utils.py:174 does when the computed name already belongs to an object is not modelled. Blender keeps object names unique, and that handling belongs to the host.
- The `sys.argv` default of `extract_args` is left out. The argument list is always passed in.
- Utils.SetLayer: requires `0 <= layerIdx < len(layers)`. Python would also accept a negative index at utils.py:147, and an index that is too large raises `IndexError`; neither case is modelled. With `layer_idx = -1`, line 147 sets the last layer, and the loop at lines 148-149 then writes `i == -1`, which is False, to every position. On a plain list the object then ends on no layer, which breaks the invariant stated in the comment at lines 145-146.
- Blender's own handling of layer writes is left out. The model treats each layer write as a plain array store.
- Iteration over `bpy.data.objects` is modelled as a sequence of names, or an array of flags, in a fixed order. The scene's own collection type is not modelled. `Utils.PrefixCountPermutation` shows that the count does not depend on that order.
