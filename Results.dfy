/** Optional values, results, and the exceptions the adapter raises. */
module Results {

  datatype Option<+T> = None | Some(value: T)

  datatype Result<+T> = Success(value: T) | Failure(error: Error)

  /** The exceptions of comfyui.py and predict.py that the model keeps. */
  datatype Error =
    | FormatError                        // load_workflow: the GUI export shape (ValueError)
    | UnsupportedNode(classType: string) // a helper's unsupported-node check raised
    | MissingInputs(nodeId: string)      // handle_weights: node["inputs"] raised KeyError
    | UnsupportedFileType(ext: string)   // handle_input_file: ValueError
    | NotADirectory(path: string)        // copy_files: a copy or makedirs below a file
    | ConnectionFailed                   // connect: the websocket connection failed
    | ExecutionFailed                    // queue_prompt: the engine answered with an HTTP error
}
