/**
 * `FileUpload` (`src/components/ui/Fileupload.tsx`): a drop zone over a
 * hidden file input. State: `dragActive` and the list `files`. Files are an
 * opaque type `F`; `onChange` is modelled by what it would be passed.
 */
module FileUpload {
  import opened Optional

  /** The list a non-empty batch produces: appended in multiple mode, only its first file otherwise. */
  function AddFiles<F>(files: seq<F>, incoming: seq<F>, multiple: bool): (r: seq<F>)
    requires incoming != []
    ensures multiple ==> r == files + incoming
    ensures !multiple ==> r == [incoming[0]] && |r| == 1
  {
    if multiple then files + incoming else [incoming[0]]
  }

  /** `files.filter((_, i) => i !== index)` over the entries numbered from `pos`. */
  function KeepOtherIndices<F>(files: seq<F>, index: int, pos: int): seq<F>
    decreases |files|
  {
    if files == [] then []
    else (if pos != index then [files[0]] else []) + KeepOtherIndices(files[1..], index, pos + 1)
  }

  /** `removeFile(index)`: the list without entry `index`; any other index leaves it as it is. */
  function RemoveFile<F>(files: seq<F>, index: int): (r: seq<F>)
    ensures 0 <= index < |files| ==> r == files[..index] + files[index + 1..]
    ensures !(0 <= index < |files|) ==> r == files
  {
    KeepOtherIndicesSlices(files, index, 0);
    KeepOtherIndices(files, index, 0)
  }

  lemma {:induction false} KeepOtherIndicesSlices<F>(files: seq<F>, index: int, pos: int)
    ensures pos <= index < pos + |files| ==>
              KeepOtherIndices(files, index, pos) == files[..index - pos] + files[index - pos + 1..]
    ensures !(pos <= index < pos + |files|) ==> KeepOtherIndices(files, index, pos) == files
    decreases |files|
  {
    if files != [] {
      KeepOtherIndicesSlices(files[1..], index, pos + 1);
      if pos == index {
        assert files[..0] + files[1..] == files[1..];
      } else if pos < index < pos + |files| {
        assert files[..index - pos] == [files[0]] + files[1..][..index - pos - 1];
        assert files[index - pos + 1..] == files[1..][index - pos..];
      } else {
        assert files == [files[0]] + files[1..];
      }
    }
  }

  /** `dragActive` after `handleDrag` sees an event of type `eventType`. */
  function DragActiveAfter(dragActive: bool, eventType: string): (b: bool)
    ensures eventType == "dragenter" || eventType == "dragover" ==> b
    ensures eventType == "dragleave" ==> !b
    ensures eventType !in {"dragenter", "dragover", "dragleave"} ==> b == dragActive
  {
    if eventType == "dragenter" || eventType == "dragover" then true
    else if eventType == "dragleave" then false
    else dragActive
  }

  /** An entry of `files` as the code can actually leave it: a file, or `undefined`. */
  datatype Entry<F> = Present(file: F) | Undefined

  function Lift<F>(files: seq<F>): (r: seq<Entry<F>>)
    ensures |r| == |files| && forall k :: 0 <= k < |files| ==> r[k] == Present(files[k])
  {
    if files == [] then [] else [Present(files[0])] + Lift(files[1..])
  }

  /**
   * `handleChange` as written: whenever `e.target.files` is present, the list
   * becomes `multiple ? [...files, ...newFiles] : [newFiles[0]]`, where
   * `newFiles[0]` is `undefined` for an empty selection.
   */
  function ChangeAsWritten<F>(files: seq<Entry<F>>, selected: seq<F>, multiple: bool): (r: seq<Entry<F>>)
    ensures multiple ==> r == files + Lift(selected)
    ensures !multiple ==> |r| == 1 && (r[0] == Undefined <==> selected == [])
  {
    if multiple then files + Lift(selected)
    else [if selected != [] then Present(selected[0]) else Undefined]
  }

  /**
   * An empty selection in single mode (the browser fires `change` with an
   * empty `FileList` when the picker is cancelled) stores `[undefined]`,
   * which the list rendering then dereferences (`file.name`).
   */
  lemma EmptySelectionStoresUndefined<F>(files: seq<F>)
    ensures ChangeAsWritten(Lift(files), [], false) == [Undefined]
  {
  }

  /** `handleChange` with the empty selection ignored, as `handleDrop` already does. */
  function ChangeCorrected<F>(files: seq<F>, selected: seq<F>, multiple: bool): (r: seq<F>)
    ensures selected == [] ==> r == files
    ensures selected != [] ==> r == AddFiles(files, selected, multiple)
    ensures selected != [] ==> Lift(r) == ChangeAsWritten(Lift(files), selected, multiple)
  {
    LiftAppend(files, selected);
    if selected == [] then files else AddFiles(files, selected, multiple)
  }

  lemma {:induction false} LiftAppend<F>(a: seq<F>, b: seq<F>)
    ensures Lift(a + b) == Lift(a) + Lift(b)
  {
    if a == [] {
      assert a + b == b;
    } else {
      assert (a + b)[1..] == a[1..] + b;
      LiftAppend(a[1..], b);
    }
  }

  /** The component's state. */
  class FileUploadBox<F> {
    var dragActive: bool
    var files: seq<F>

    constructor ()
      ensures !dragActive && files == []
    {
      dragActive := false;
      files := [];
    }

    /** `handleDrag`, for the `dragenter`, `dragover` and `dragleave` listeners. */
    method HandleDrag(eventType: string)
      modifies this
      ensures dragActive == DragActiveAfter(old(dragActive), eventType)
      ensures files == old(files)
    {
      if eventType == "dragenter" || eventType == "dragover" {
        dragActive := true;
      } else if eventType == "dragleave" {
        dragActive := false;
      }
    }

    /**
     * `handleDrop`: the drag ends; an enabled drop of at least one file
     * updates the list and, when an `onChange` prop is given, passes it the
     * new list (`emitted`).
     */
    method HandleDrop(dropped: seq<F>, disabled: bool, multiple: bool, hasOnChange: bool)
      returns (emitted: Option<seq<F>>)
      modifies this
      ensures !dragActive
      ensures dropped != [] && !disabled ==> files == AddFiles(old(files), dropped, multiple)
      ensures dropped == [] || disabled ==> files == old(files)
      ensures emitted == if dropped != [] && !disabled && hasOnChange then Some(files) else None
    {
      dragActive := false;
      emitted := None;
      if dropped != [] && !disabled {
        var newFiles := AddFiles(files, dropped, multiple);
        files := newFiles;
        if hasOnChange {
          emitted := Some(newFiles);
        }
      }
    }

    /**
     * `handleChange` (corrected for empty selections): `selected` is
     * `e.target.files`, `None` when absent. `disabled` is not consulted. The
     * result says whether the raw event is forwarded to `onChange`.
     */
    method HandleChange(selected: Option<seq<F>>, multiple: bool, hasOnChange: bool)
      returns (forwarded: bool)
      modifies this
      ensures selected.Some? ==> files == ChangeCorrected(old(files), selected.value, multiple)
      ensures selected.None? ==> files == old(files)
      ensures dragActive == old(dragActive)
      ensures forwarded == (selected.Some? && hasOnChange)
    {
      forwarded := false;
      if selected.Some? {
        files := ChangeCorrected(files, selected.value, multiple);
        forwarded := hasOnChange;
      }
    }

    /** `removeFile`. */
    method RemoveFileAt(index: int)
      modifies this
      ensures files == RemoveFile(old(files), index)
      ensures dragActive == old(dragActive)
    {
      files := RemoveFile(files, index);
    }
  }
}
